/** adns__mkquery, adns__parse_domain_more and vbuf__append_quoted1035 with their loops. */
module NameMethods {
  import opened Bytes
  import opened WireNames
  import opened TextNames

  const DNS_HDRSIZE: nat := 12
  const DNS_CLASS_IN: nat := 1

  function Be16(x: nat): (s: seq<Byte>)
    ensures |s| == 2
  {
    [x / 256 % 256, x % 256]
  }

  /** Id, flags (recursion desired), one question, no records. */
  function QueryHeader(id: nat): (s: seq<Byte>)
    ensures |s| == DNS_HDRSIZE
  {
    Be16(id) + [1, 0] + Be16(1) + Be16(0) + Be16(0) + Be16(0)
  }

  function QueryPacket(id: nat, labels: seq<seq<Byte>>, rrtype: nat): seq<Byte>
    requires LabelSizes(labels)
  {
    QueryHeader(id) + WireLabels(labels) + [0] + Be16(rrtype) + Be16(DNS_CLASS_IN)
  }

  /** The packet holds the name where every reader of a query looks for it, it is no longer than
      adns__mkquery reserves, and the name fits 255 octets. */
  lemma PacketCarriesName(id: nat, m: seq<Byte>, n: nat, quoteok: bool, rrtype: nat)
    requires n <= |m| && ParseBuffer(m, n, quoteok).Good?
    ensures var labels := ParseBuffer(m, n, quoteok).value;
      && LabelSizes(labels) && (forall i :: 0 <= i < |labels| ==> 1 <= |labels[i]| <= 63) && LabelBytes(labels) + 1 <= 255
      && NameAt(QueryPacket(id, labels, rrtype), DNS_HDRSIZE, labels)
      && LinearEnd(QueryPacket(id, labels, rrtype), DNS_HDRSIZE) == Some(DNS_HDRSIZE + LabelBytes(labels) + 1)
      && |QueryPacket(id, labels, rrtype)| == DNS_HDRSIZE + LabelBytes(labels) + 1 + 4
      && |QueryPacket(id, labels, rrtype)| <= DNS_HDRSIZE + (n + 2) + 4
  {
    hide ReadName, NameAt, WireLabels;
    AcceptedSizes(m, n, 0, quoteok, 0, []);
    TextCoversWire(m, n, 0, quoteok, 0, []);
    PacketHolds(id, ParseBuffer(m, n, quoteok).value, rrtype);
  }

  lemma PacketHolds(id: nat, labels: seq<seq<Byte>>, rrtype: nat)
    requires LabelSizes(labels)
    ensures NameAt(QueryPacket(id, labels, rrtype), DNS_HDRSIZE, labels)
    ensures LinearEnd(QueryPacket(id, labels, rrtype), DNS_HDRSIZE) == Some(DNS_HDRSIZE + LabelBytes(labels) + 1)
    ensures |QueryPacket(id, labels, rrtype)| == DNS_HDRSIZE + LabelBytes(labels) + 1 + 4
  {
    hide NameAt, WireLabels;
    var dg := QueryPacket(id, labels, rrtype);
    WireSize(labels);
    assert dg[DNS_HDRSIZE..DNS_HDRSIZE + LabelBytes(labels) + 1] == WireLabels(labels) + [0];
    WireReadable(dg, DNS_HDRSIZE, labels);
  }

  /** The names adns__findlabel_next lets through: it counts the labels and the dots between them. */
  predicate Walkable(labels: seq<seq<Byte>>) {
    LabelSizes(labels) && TextLength(0, labels) <= DNS_MAXDOMAIN
  }

  type WalkedName = labels: seq<seq<Byte>> | Walkable(labels) witness []

  function NameOf(p: Located): WalkedName {
    WalkedIsWalkable(p.dgram, p.begin, |p.dgram|);
    LabelsAt(p)
  }

  /** The most octets such a name takes on the wire: a length byte and a root byte more than text. */
  const MAX_WIRE_NAME: nat := 257

  lemma WalkedIsWalkable(dg: seq<Byte>, pos: nat, max: nat)
    ensures var w := Walk(dg, Cursor(pos, 0, max, None, false)); w.Walked? ==> Walkable(w.labels)
  {
    hide Walk, NameAt;
    var c := Cursor(pos, 0, max, None, false);
    var w := Walk(dg, c);
    if w.Walked? {
      WalkIsName(dg, c, w.labels);
      NameSizes(dg, pos, w.labels);
    }
  }

  lemma {:induction false} TextToWire(namelen: nat, labels: seq<seq<Byte>>)
    requires LabelSizes(labels)
    ensures TextLength(namelen, labels) == namelen + LabelBytes(labels) - (if namelen == 0 && labels != [] then 1 else 0)
    decreases |labels|
  {
    if labels != [] {
      TextToWire((if namelen > 0 then namelen + 1 else 0) + |labels[0]|, labels[1..]);
    }
  }

  /** The question for such a name, and that 257 octets are needed for it. */
  lemma WalkableFits(labels: seq<seq<Byte>>)
    requires LabelSizes(labels)
    ensures labels != [] ==> (Walkable(labels) <==> LabelBytes(labels) + 1 <= MAX_WIRE_NAME)
    ensures labels == [] ==> LabelBytes(labels) + 1 == 1
    ensures Walkable(labels) ==> LabelBytes(labels) + 1 <= MAX_WIRE_NAME
  {
    TextToWire(0, labels);
  }

  /** From a datagram to text to a query and back: the query asks for the very same labels. */
  lemma WireRoundTrip(dg: seq<Byte>, pos: nat, labels: seq<seq<Byte>>, id: nat, rrtype: nat)
    requires NameAt(dg, pos, labels) && AllFaithful(labels) && LabelBytes(labels) + 1 <= DNS_MAXDOMAIN
    ensures LabelSizes(labels) && ParseText(PrintQuoted(labels), true) == Good(labels)
    ensures NameAt(QueryPacket(id, labels, rrtype), DNS_HDRSIZE, labels)
  {
    hide PrintQuoted, ReadName;
    NameSizes(dg, pos, labels);
    QuotedRoundTrip(labels);
    PacketCarriesName(id, PrintQuoted(labels), |PrintQuoted(labels)|, true, rrtype);
  }

  lemma {:induction false} NameSizes(dg: seq<Byte>, pos: nat, labels: seq<seq<Byte>>)
    requires NameAt(dg, pos, labels)
    ensures LabelSizes(labels)
    decreases |labels|
  {
    hide Resolve;
    if labels != [] {
      var r := Resolve(dg, pos).value;
      NameSizes(dg, r + 1 + dg[r], labels[1..]);
      assert forall i :: 0 < i < |labels| ==> labels[i] == labels[1..][i - 1];
    }
  }

  /** A label takes at least as many characters of the text as it has bytes, and its dot one more. */
  lemma {:induction false} TextCoversLabel(m: seq<Byte>, n: nat, p: nat, quoteok: bool, done: seq<Byte>)
    requires p <= n <= |m|
    ensures var r := ReadLabel(m, n, p, quoteok, done);
      r.Good? ==> |r.value.0| - |done| <= r.value.1 - p && (r.value.1 < n ==> |r.value.0| - |done| < r.value.1 - p)
    decreases n - p
  {
    if p < n && m[p] != DOT {
      var r := ReadChar(m, p, quoteok);
      if r.Good? && |done| != MAX_LABEL_BUFFER && (quoteok || !BadHostChar(r.value.0, |done|)) && r.value.1 <= n {
        TextCoversLabel(m, n, r.value.1, quoteok, done + [r.value.0]);
      }
    }
  }

  lemma {:induction false} TextCoversWire(m: seq<Byte>, n: nat, p: nat, quoteok: bool, nbytes: nat, done: seq<seq<Byte>>)
    requires p <= n <= |m| && nbytes <= p + 1 && (p < n ==> nbytes <= p) && nbytes == LabelBytes(done)
    ensures var r := ReadName(m, n, p, quoteok, nbytes, done); r.Good? ==> LabelBytes(r.value) <= n + 1
    decreases n - p
  {
    hide ReadLabel;
    if p < n {
      TextCoversLabel(m, n, p, quoteok, []);
      var r := ReadLabel(m, n, p, quoteok, []);
      if r.Good? && 0 < |r.value.0| <= DNS_MAXLABEL && nbytes + |r.value.0| + 1 < DNS_MAXDOMAIN {
        LabelBytesAppend(done, r.value.0);
        TextCoversWire(m, n, r.value.1, quoteok, nbytes + |r.value.0| + 1, done + [r.value.0]);
      }
    }
  }

  // ---------------------------------------------------------------- adns__mkquery

  /** Puts bytes at the moving pointer. The caller's reservation bounds it. */
  method AddBytes(buf: array<Byte>, used: nat, s: seq<Byte>) returns (used': nat)
    requires used + |s| <= buf.Length
    modifies buf
    ensures used' == used + |s| && buf[..used'] == old(buf[..used]) + s
  {
    forall i | 0 <= i < |s| {
      buf[used + i] := s[i];
    }
    used' := used + |s|;
  }

  method AddLabel(buf: array<Byte>, used: nat, lab: seq<Byte>) returns (used': nat)
    requires used + 1 + |lab| <= buf.Length && |lab| < 256
    modifies buf
    ensures used' == used + 1 + |lab| && buf[..used'] == old(buf[..used]) + [|lab|] + lab
  {
    used' := AddBytes(buf, used, [|lab|]);
    used' := AddBytes(buf, used', lab);
  }

  /** The root, and mkquery_footer. */
  method AddFooter(buf: array<Byte>, used: nat, rrtype: nat) returns (used': nat)
    requires used + 5 <= buf.Length
    modifies buf
    ensures used' == used + 5 && buf[..used'] == old(buf[..used]) + [0] + Be16(rrtype) + Be16(DNS_CLASS_IN)
  {
    hide Be16;
    used' := AddBytes(buf, used, [0]);
    used' := AddBytes(buf, used', Be16(rrtype));
    used' := AddBytes(buf, used', Be16(DNS_CLASS_IN));
  }

  /** The packet of a query for the text, the first n bytes of m, written into the reservation the
      code makes. */
  method MkQuery(id: nat, m: seq<Byte>, n: nat, quoteok: bool, rrtype: nat) returns (r: Outcome<seq<Byte>>)
    requires n <= |m|
    ensures var parsed := ParseBuffer(m, n, quoteok);
      if parsed.Good? then LabelSizes(parsed.value) && r == Good(QueryPacket(id, parsed.value, rrtype))
      else r == parsed.PropagateFailure()
  {
    hide ReadLabel, WireLabels, Be16, LabelBytes, QueryHeader;
    var buf := new Byte[DNS_HDRSIZE + (n + 2) + 4];
    var used := AddBytes(buf, 0, QueryHeader(id));
    var p, nbytes := 0, 0;
    ghost var labels: seq<seq<Byte>> := [];
    NoLabels();
    while p != n
      invariant p <= n && used == DNS_HDRSIZE + nbytes && LabelSizes(labels)
      invariant nbytes == LabelBytes(labels) && nbytes <= p + 1 && (p < n ==> nbytes <= p)
      invariant buf[..used] == QueryHeader(id) + WireLabels(labels)
      invariant ReadName(m, n, 0, quoteok, 0, []) == ReadName(m, n, p, quoteok, nbytes, labels)
      decreases n - p
    {
      TextCoversLabel(m, n, p, quoteok, []);
      var l := ScanLabel(m, n, p, quoteok);
      if !l.Good? {
        return l.PropagateFailure();
      }
      var (lab, p') := l.value;
      if lab == [] {
        return Refused(QueryDomainInvalid);
      }
      if |lab| > DNS_MAXLABEL || nbytes + |lab| + 1 >= DNS_MAXDOMAIN {
        return Refused(QueryDomainTooLong);
      }
      LabelBytesAppend(labels, lab);
      WireAppend(labels, lab);
      p, nbytes, labels := p', nbytes + |lab| + 1, labels + [lab];
      used := AddLabel(buf, used, lab);
    }
    used := AddFooter(buf, used, rrtype);
    r := Good(buf[..used]);
  }

  lemma NoLabels()
    ensures LabelSizes([]) && WireLabels([]) == [] && LabelBytes([]) == 0
  {
  }

  /** The inner loop of adns__mkquery: one label into the label buffer. */
  method ScanLabel(m: seq<Byte>, n: nat, start: nat, quoteok: bool) returns (r: Outcome<(seq<Byte>, nat)>)
    requires start <= n <= |m|
    ensures r == ReadLabel(m, n, start, quoteok, [])
  {
    hide ReadChar;
    var buffer := new Byte[MAX_LABEL_BUFFER];
    var p, ll := start, 0;
    assert buffer[..0] == [];
    while p != n
      invariant p <= n && ll <= MAX_LABEL_BUFFER
      invariant ReadLabel(m, n, start, quoteok, []) == ReadLabel(m, n, p, quoteok, buffer[..ll])
      decreases n - p
    {
      if m[p] == DOT {
        return Good((buffer[..ll], p + 1));
      }
      var c := ReadChar(m, p, quoteok);
      if !c.Good? {
        return c.PropagateFailure();
      }
      if !quoteok && BadHostChar(c.value.0, ll) {
        return Refused(QueryDomainInvalid);
      }
      if ll == MAX_LABEL_BUFFER {
        return Refused(QueryDomainInvalid);
      }
      if c.value.1 > n {
        return Astray;
      }
      ghost var before := buffer[..ll];
      buffer[ll] := c.value.0;
      ll, p := ll + 1, c.value.1;
      assert buffer[..ll] == before + [c.value.0];
    }
    r := Good((buffer[..ll], p));
  }

  // ---------------------------------------------------------------- adns__mkquery_frdgram

  lemma {:induction false} LabelBytesConcat(a: seq<seq<Byte>>, b: seq<seq<Byte>>)
    ensures LabelBytes(a + b) == LabelBytes(a) + LabelBytes(b)
    decreases |b|
  {
    if b == [] {
      assert a + b == a;
    } else {
      assert a + b == (a + [b[0]]) + b[1..];
      LabelBytesAppend(a, b[0]);
      LabelBytesConcat(a + [b[0]], b[1..]);
    }
  }

  /** The bytes adns__mkquery_frdgram reserves for a name, as many as its datagram has, suffice. */
  predicate RoomFor(p: Located) {
    LabelBytes(NameOf(p)) + 1 <= |p.dgram|
  }

  lemma NameIs(p: Located, id: nat, rrtype: nat)
    ensures var w := Walk(p.dgram, Cursor(p.begin, 0, |p.dgram|, None, false));
      && w.Walked? && NameOf(p) == w.labels && LabelSizes(w.labels)
      && (RoomFor(p) <==> LabelBytes(w.labels) + 1 <= |p.dgram|) && LabelBytes(w.labels) + 1 <= MAX_WIRE_NAME
      && QueryPacket(id, NameOf(p), rrtype) == QueryHeader(id) + WireLabels(w.labels) + [0] + Be16(rrtype) + Be16(DNS_CLASS_IN)
  {
    WalkableFits(NameOf(p));
  }

  /** The packet of a query for a name that lies in a datagram and was walked before. None says that
      the bytes reserved do not suffice, which pointers make possible, as labels they share are written
      out each time. */
  method MkQueryFrdgram(id: nat, p: Located, rrtype: nat) returns (r: Option<seq<Byte>>)
    ensures r == if RoomFor(p) then Some(QueryPacket(id, NameOf(p), rrtype)) else None
    ensures |p.dgram| >= MAX_WIRE_NAME ==> r.Some?
  {
    hide Walk, NextLabel, WireLabels, Be16, LabelBytes, QueryHeader, TextLength, WalkAt, RoomFor, NameOf, QueryPacket;
    var dgram, begin := p.dgram, p.begin;
    var buf := new Byte[DNS_HDRSIZE + |dgram| + 4];
    var used := AddBytes(buf, 0, QueryHeader(id));
    var fls := new FindLabelState(dgram, |dgram|, begin);
    ghost var w, done := Walk(dgram, fls.View()), [];
    assert Prepend([], w) == w;
    NameIs(p, id, rrtype);
    NoLabels();
    while true
      invariant w == Prepend(done, Walk(dgram, fls.View())) && w.Walked? && LabelSizes(w.labels) && LabelSizes(done)
      invariant used == DNS_HDRSIZE + LabelBytes(done) <= buf.Length
      invariant buf[..used] == QueryHeader(id) + WireLabels(done)
      decreases DNS_MAXDOMAIN + 1 - fls.namelen
    {
      WalkStep(dgram, fls.View(), done);
      var step := fls.Next();
      if step.Root? {
        break;
      }
      var lab := dgram[step.start..step.start + step.len];
      assert w.labels[|done|] == lab;
      LabelBytesAppend(done, lab);
      WireAppend(done, lab);
      LabelBytesConcat(done + [lab], Walk(dgram, fls.View()).labels);
      if used + 1 + |lab| > buf.Length {
        return None;
      }
      used := AddLabel(buf, used, lab);
      done := done + [lab];
    }
    if used + 5 > buf.Length {
      return None;
    }
    used := AddFooter(buf, used, rrtype);
    r := Some(buf[..used]);
  }

  /** A name of 13 octets in 8 bytes, and so no room for it: its second label lies in the first, and
      its third in the second. */
  lemma SharedLabelsOutgrow()
    ensures var p := Place([2, 3, 4, 192, 1, 192, 2, 0], 0);
      Readable(p) && NameOf(p) == [[3, 4], [4, 192, 1], [192, 1, 192, 2]] && !RoomFor(p)
  {
    hide Walk, TextLength, LinearEnd;
    var dg: seq<Byte> := [2, 3, 4, 192, 1, 192, 2, 0];
    var a: seq<Byte>, b: seq<Byte>, c: seq<Byte> := [3, 4], [4, 192, 1], [192, 1, 192, 2];
    assert Resolve(dg, 7) == Some(7) && Resolve(dg, 0) == Some(0);
    assert ResolveIn(dg, 1, 7) == Some(1) && ResolveIn(dg, 2, 7) == Some(2);
    assert Resolve(dg, 3) == Some(1) && Resolve(dg, 5) == Some(2);
    assert NameAt(dg, 7, []);
    assert dg[3..7] == c && [c][1..] == [] && NameAt(dg, 5, [c]);
    assert dg[2..5] == b && [b, c][1..] == [c] && NameAt(dg, 3, [b, c]);
    assert dg[1..3] == a && [a, b, c][1..] == [b, c] && NameAt(dg, 0, [a, b, c]);
    NameSizes(dg, 0, [a, b, c]);
    TextToWire(0, [a, b, c]);
    assert LabelBytes([c]) == 5 && LabelBytes([b, c]) == 9 && LabelBytes([a, b, c]) == 12;
    NameFits(dg, 0, [a, b, c]);
    WalkIsName(dg, Cursor(0, 0, |dg|, None, false), [a, b, c]);
  }

  // ---------------------------------------------------------------- printing

  /** vbuf__append_quoted1035: copies runs of unquoted bytes, and one escape between runs. */
  method AppendQuoted(vb: seq<Byte>, buf: seq<Byte>) returns (vb': seq<Byte>)
    ensures vb' == vb + Quote(buf)
  {
    hide QuoteByte, Unquoted;
    vb' := vb;
    var rest := buf;
    while |rest| > 0
      invariant vb' + Quote(rest) == vb + Quote(buf)
      decreases |rest|
    {
      var i := 0;
      while i < |rest| && PlainByte(rest[i])
        invariant i <= |rest|
        invariant forall k :: 0 <= k < i ==> PlainByte(rest[k])
      {
        i := i + 1;
      }
      QuoteRun(rest, i);
      vb' := vb' + rest[..i];
      if i < |rest| {
        vb' := vb' + QuoteByte(rest[i]);
        i := i + 1;
      }
      rest := rest[i..];
    }
  }

  predicate PlainByte(ch: Byte) {
    32 < ch < 127 && Unquoted(ch)
  }

  lemma {:induction false} QuoteRun(s: seq<Byte>, i: nat)
    requires i <= |s| && forall k :: 0 <= k < i ==> PlainByte(s[k])
    ensures Quote(s) == s[..i] + Quote(s[i..])
    ensures i < |s| ==> Quote(s[i..]) == QuoteByte(s[i]) + Quote(s[i + 1..])
    decreases i
  {
    hide QuoteByte, PlainByte;
    if i < |s| {
      assert s[i..][1..] == s[i + 1..];
    }
    if i == 0 {
      assert s[0..] == s;
    } else {
      PlainQuote(s[0]);
      QuoteRun(s[1..], i - 1);
      assert s[1..][i - 1..] == s[i..];
      assert s[..i] == [s[0]] + s[1..][..i - 1];
    }
  }

  lemma PlainQuote(ch: Byte)
    requires PlainByte(ch)
    ensures QuoteByte(ch) == [ch]
  {
  }

  /** What reading a name that is to be printed comes to. NoText: nothing is left in the buffer, as
      the name is cut off or its first label is no good. */
  datatype DomainRead = Name(labels: seq<seq<Byte>>) | NoText | Unfit | Spoiled(why: Step) | Circle

  function ReadDomain(dg: seq<Byte>, c: Cursor, quoteok: bool, first: bool): DomainRead
    decreases DNS_MAXDOMAIN + 1 - c.namelen
  {
    var (step, c') := NextLabel(dg, c);
    if step.Root? then Name([])
    else if step.Endless? then Circle
    else if step.Truncated? then NoText
    else if step.Label? then
      NextLabelGrows(dg, c);
      var l := dg[step.start..step.start + step.len];
      if !quoteok && !HostLabel(l) then (if first then NoText else Unfit)
      else
        var rest := ReadDomain(dg, c', quoteok, false);
        if rest.Name? then Name([l] + rest.labels) else rest
    else if first then NoText
    else Spoiled(step)
  }

  function After(done: seq<seq<Byte>>, d: DomainRead): DomainRead {
    if d.Name? then Name(done + d.labels) else d
  }

  /** A name is read exactly when it can be walked and, without quoting, is a strict host name. */
  lemma {:induction false} ReadIsWalk(dg: seq<Byte>, c: Cursor, quoteok: bool, first: bool)
    ensures var w, d := Walk(dg, c), ReadDomain(dg, c, quoteok, first);
      && (d.Name? <==> w.Walked? && (quoteok || HostName(w.labels))) && (d.Name? ==> d.labels == w.labels)
    decreases DNS_MAXDOMAIN + 1 - c.namelen
  {
    hide NextLabel, HostLabel;
    NextLabelGrows(dg, c);
    var (step, c') := NextLabel(dg, c);
    if step.Label? {
      ReadIsWalk(dg, c', quoteok, false);
      if Walk(dg, c').Walked? {
        HostNameCons(dg[step.start..step.start + step.len], Walk(dg, c').labels);
      }
    }
  }

  lemma HostNameCons(l: seq<Byte>, rest: seq<seq<Byte>>)
    ensures HostName([l] + rest) <==> HostLabel(l) && HostName(rest)
  {
    hide HostLabel;
    if HostName([l] + rest) {
      assert ([l] + rest)[0] == l;
      assert forall i :: 0 <= i < |rest| ==> rest[i] == ([l] + rest)[i + 1];
    }
  }

  /** A name read within a tighter limit is readable. */
  lemma ReadIsReadable(dg: seq<Byte>, pos: nat, max: nat, quoteok: bool)
    requires max <= |dg|
    ensures ReadDomain(dg, Cursor(pos, 0, max, None, false), quoteok, true).Name? ==>
      Readable(Place(dg, pos))
      && LabelsAt(Place(dg, pos)) == ReadDomain(dg, Cursor(pos, 0, max, None, false), quoteok, true).labels
  {
    hide ReadDomain, Walk, NameAt, TextLength, LinearEnd;
    var c, whole := Cursor(pos, 0, max, None, false), Cursor(pos, 0, |dg|, None, false);
    ReadIsWalk(dg, c, quoteok, true);
    if ReadDomain(dg, c, quoteok, true).Name? {
      WalkIsName(dg, c, Walk(dg, c).labels);
      WalkIsName(dg, whole, Walk(dg, c).labels);
    }
  }

  lemma ReadStep(dg: seq<Byte>, c: Cursor, quoteok: bool, done: seq<seq<Byte>>)
    ensures var (step, c') := NextLabel(dg, c);
      var d := ReadDomain(dg, c, quoteok, done == []);
      if step.Root? then After(done, d) == Name(done)
      else if step.Endless? then d == Circle
      else if step.Truncated? then d == NoText
      else if step.Label? then
        && step.start + step.len <= |dg|
        && var l := dg[step.start..step.start + step.len];
        if !quoteok && !HostLabel(l) then d == if done == [] then NoText else Unfit
        else After(done, d) == After(done + [l], ReadDomain(dg, c', quoteok, false))
      else d == if done == [] then NoText else Spoiled(step)
  {
    hide NextLabel, HostLabel;
    NextLabelGrows(dg, c);
    var (step, c') := NextLabel(dg, c);
    if step.Root? {
      assert done + [] == done;
    } else if step.Label? {
      var l := dg[step.start..step.start + step.len];
      var rest := ReadDomain(dg, c', quoteok, false);
      if rest.Name? {
        assert done + ([l] + rest.labels) == done + [l] + rest.labels;
      }
    }
  }

  datatype PrintResult = Printed(text: seq<Byte>) | HostInvalid | NotPrinted(why: Step)

  /** What the printing method answers, and whether it leaves bytes in the buffer. */
  ghost predicate Prints(d: DomainRead, r: PrintResult, used: bool, quoteok: bool) {
    match d
    case Name(labels) => used && r == Printed(if quoteok then PrintQuoted(labels) else PrintPlain(labels))
    case NoText => !used && !r.Printed? && r != NotPrinted(Endless)
    case Unfit => used && r == HostInvalid
    case Spoiled(why) => used && r == NotPrinted(why) && why != Endless
    case Circle => r == NotPrinted(Endless)
  }

  /** adns__parse_domain_more: walks the name and prints each label, or, without quoting, refuses
      labels that are not strict host labels. used: the buffer is not left empty. */
  method ParseDomain(dgram: seq<Byte>, dmbegin: nat, max: nat, quoteok: bool)
    returns (r: PrintResult, dmend: Option<nat>, used: bool)
    ensures var c := Cursor(dmbegin, 0, max, None, false);
      && Prints(ReadDomain(dgram, c, quoteok, true), r, used, quoteok)
      && (r.Printed? <==> Walk(dgram, c).Walked? && (quoteok || HostName(Walk(dgram, c).labels)))
      && (r.Printed? ==> dmend == Walk(dgram, c).end.dmend)
  {
    hide Walk, ReadDomain, NextLabel, PrintQuoted, PrintPlain, HostLabel, Quote;
    var fls := new FindLabelState(dgram, max, dmbegin);
    ghost var w, done := Walk(dgram, fls.View()), [];
    ghost var d := ReadDomain(dgram, fls.View(), quoteok, true);
    ReadIsWalk(dgram, fls.View(), quoteok, true);
    assert Prepend([], w) == w && After([], d) == d;
    var vb: seq<Byte> := [];
    var first := true;
    PrintedNothing();
    while true
      invariant w == Prepend(done, Walk(dgram, fls.View()))
      invariant d == After(done, ReadDomain(dgram, fls.View(), quoteok, done == []))
      invariant first <==> done == []
      invariant vb == if quoteok then PrintQuoted(done) else PrintPlain(done)
      invariant done != [] ==> vb != []
      decreases DNS_MAXDOMAIN + 1 - fls.namelen
    {
      WalkStep(dgram, fls.View(), done);
      ReadStep(dgram, fls.View(), quoteok, done);
      var step := fls.Next();
      if step.Root? {
        break;
      }
      if !step.Label? {
        return NotPrinted(step), fls.dmend, step != Truncated && vb != [];
      }
      var lab := dgram[step.start..step.start + step.len];
      if !quoteok && !HostLabel(lab) {
        return HostInvalid, fls.dmend, vb != [];
      }
      if first {
        first := false;
      } else {
        vb := vb + [DOT];
      }
      PrintAppend(done, lab);
      QuoteGrows(lab);
      if quoteok {
        vb := AppendQuoted(vb, lab);
      } else {
        vb := vb + lab;
      }
      done := done + [lab];
    }
    r, dmend, used := Printed(vb), fls.dmend, true;
  }

  lemma {:induction false} PrintAppend(labels: seq<seq<Byte>>, l: seq<Byte>)
    ensures PrintQuoted(labels + [l]) == (if labels == [] then [] else PrintQuoted(labels) + [DOT]) + Quote(l)
    ensures PrintPlain(labels + [l]) == (if labels == [] then [] else PrintPlain(labels) + [DOT]) + l
    decreases |labels|
  {
    hide Quote;
    if labels == [] {
      assert labels + [l] == [l];
    } else {
      assert labels + [l] == [labels[0]] + (labels[1..] + [l]);
      PrintAppend(labels[1..], l);
      Rejoin(Quote(labels[0]), PrintQuoted(labels[1..]), Quote(l));
      Rejoin(labels[0], PrintPlain(labels[1..]), l);
    }
  }

  lemma Rejoin(a: seq<Byte>, b: seq<Byte>, c: seq<Byte>)
    ensures a + ([DOT] + (b + [DOT] + c)) == a + ([DOT] + b) + [DOT] + c
    ensures a + ([DOT] + ([] + c)) == a + [DOT] + c
  {
  }
}
