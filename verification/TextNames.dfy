/** Domain names as text: what adns__mkquery reads, what the parser prints, and when each undoes
    the other. */
module TextNames {
  import opened Bytes
  import opened WireNames

  const DOT: Byte := 46
  const BACKSLASH: Byte := 92
  const HYPHEN: Byte := 45
  const MAX_LABEL_BUFFER: nat := 255

  datatype NameStatus = QueryDomainInvalid | QueryDomainTooLong

  /** Astray: the reader left the text behind, or read bytes that nothing has written. */
  datatype Outcome<+T> = Good(value: T) | Refused(status: NameStatus) | Astray {
    predicate IsFailure() { !Good? }
    function PropagateFailure<U>(): Outcome<U>
      requires !Good?
    {
      if Refused? then Refused(status) else Astray
    }
    function Extract(): T
      requires Good?
    {
      value
    }
  }

  predicate IsDigit(ch: Byte) {
    48 <= ch <= 57
  }

  predicate IsAlnum(ch: Byte) {
    IsAlpha(ch) || IsDigit(ch)
  }

  /** ctype_domainunquoted: letters, digits and - _ / + */
  predicate Unquoted(ch: Byte) {
    IsAlnum(ch) || ch == HYPHEN || ch == 95 || ch == 47 || ch == 43
  }

  // ---------------------------------------------------------------- reading

  /** One character of a label, escapes undone, and the position after it. The bytes of memory that
      have been written are m; where the text ends does not matter here. */
  function ReadChar(m: seq<Byte>, p: nat, quoteok: bool): (r: Outcome<(Byte, nat)>)
    requires p < |m|
    ensures r.Good? ==> p < r.value.1 <= |m|
  {
    if m[p] != BACKSLASH then Good((m[p], p + 1))
    else if !quoteok then Refused(QueryDomainInvalid)
    else if p + 1 == |m| then Astray
    else if IsDigit(m[p + 1]) then
      if p + 2 == |m| then Astray
      else if !IsDigit(m[p + 2]) then Refused(QueryDomainInvalid)
      else if p + 3 == |m| then Astray
      else if !IsDigit(m[p + 3]) then Refused(QueryDomainInvalid)
      else
        var c := Decimal(m[p + 1], m[p + 2], m[p + 3]);
        if c >= 256 then Refused(QueryDomainInvalid) else Good((c, p + 4))
    else if m[p + 1] == 0 then Refused(QueryDomainInvalid)
    else Good((m[p + 1], p + 2))
  }

  function Decimal(a: int, b: int, c: int): (n: int)
    ensures 48 <= a && 48 <= b && 48 <= c ==> n >= 0
  {
    (a - 48) * 100 + (b - 48) * 10 + (c - 48)
  }

  /** A character that may not stand at index ll of a label of a strict host name. */
  predicate BadHostChar(c: Byte, ll: nat) {
    if c == HYPHEN then ll == 0 else !IsAlnum(c)
  }

  /** The inner loop of adns__mkquery, with the label so far. The text is the first n bytes; past
      its end the loop does not stop any more. */
  function ReadLabel(m: seq<Byte>, n: nat, p: nat, quoteok: bool, soFar: seq<Byte>): (r: Outcome<(seq<Byte>, nat)>)
    requires p <= n <= |m|
    ensures r.Good? ==> p <= r.value.1 <= n && (p < n ==> p < r.value.1)
    decreases n - p
  {
    if p == n then Good((soFar, p))
    else if m[p] == DOT then Good((soFar, p + 1))
    else
      var (c, p') :- ReadChar(m, p, quoteok);
      if !quoteok && BadHostChar(c, |soFar|) then Refused(QueryDomainInvalid)
      else if |soFar| == MAX_LABEL_BUFFER then Refused(QueryDomainInvalid)
      else if p' > n then Astray
      else ReadLabel(m, n, p', quoteok, soFar + [c])
  }

  /** The outer loop, with the labels so far and the bytes they take. */
  function ReadName(m: seq<Byte>, n: nat, p: nat, quoteok: bool, nbytes: nat, labels: seq<seq<Byte>>): Outcome<seq<seq<Byte>>>
    requires p <= n <= |m|
    decreases n - p
  {
    if p == n then Good(labels)
    else
      var (l, p') :- ReadLabel(m, n, p, quoteok, []);
      if l == [] then Refused(QueryDomainInvalid)
      else if |l| > DNS_MAXLABEL then Refused(QueryDomainTooLong)
      else if nbytes + |l| + 1 >= DNS_MAXDOMAIN then Refused(QueryDomainTooLong)
      else ReadName(m, n, p', quoteok, nbytes + |l| + 1, labels + [l])
  }

  /** Reads the first n bytes of memory as a name. */
  function ParseBuffer(m: seq<Byte>, n: nat, quoteok: bool): Outcome<seq<seq<Byte>>>
    requires n <= |m|
  {
    ReadName(m, n, 0, quoteok, 0, [])
  }

  /** Reads a text with nothing behind it. */
  function ParseText(t: seq<Byte>, quoteok: bool): Outcome<seq<seq<Byte>>> {
    ParseBuffer(t, |t|, quoteok)
  }

  // ---------------------------------------------------------------- the end of the text

  /** An escape of the text, from p on, is cut off by its end. */
  predicate CutsEscape(t: seq<Byte>, p: nat)
    decreases |t| - p
  {
    if p >= |t| then false
    else if t[p] != BACKSLASH then CutsEscape(t, p + 1)
    else if p + 1 == |t| then true
    else if !IsDigit(t[p + 1]) then CutsEscape(t, p + 2)
    else if p + 2 == |t| then true
    else if !IsDigit(t[p + 2]) then false
    else if p + 3 == |t| then true
    else IsDigit(t[p + 3]) && CutsEscape(t, p + 4)
  }

  lemma {:induction false} LabelAstray(t: seq<Byte>, p: nat, quoteok: bool, soFar: seq<Byte>)
    requires p <= |t|
    ensures var r := ReadLabel(t, |t|, p, quoteok, soFar);
      && (r.Astray? ==> quoteok && CutsEscape(t, p))
      && (r.Good? && quoteok ==> (CutsEscape(t, p) <==> CutsEscape(t, r.value.1)))
    decreases |t| - p
  {
    if p < |t| && t[p] != DOT {
      var r := ReadChar(t, p, quoteok);
      if r.Good? && (quoteok || !BadHostChar(r.value.0, |soFar|)) && |soFar| != MAX_LABEL_BUFFER {
        LabelAstray(t, r.value.1, quoteok, soFar + [r.value.0]);
      }
    }
  }

  lemma {:induction false} NameAstray(t: seq<Byte>, p: nat, quoteok: bool, nbytes: nat, labels: seq<seq<Byte>>)
    requires p <= |t|
    ensures var r := ReadName(t, |t|, p, quoteok, nbytes, labels);
      && (r.Astray? ==> quoteok && CutsEscape(t, p))
      && (r.Good? && quoteok ==> !CutsEscape(t, p))
    decreases |t| - p
  {
    hide ReadLabel;
    if p < |t| {
      LabelAstray(t, p, quoteok, []);
      var r := ReadLabel(t, |t|, p, quoteok, []);
      if r.Good? && 0 < |r.value.0| <= DNS_MAXLABEL && nbytes + |r.value.0| + 1 < DNS_MAXDOMAIN {
        NameAstray(t, r.value.1, quoteok, nbytes + |r.value.0| + 1, labels + [r.value.0]);
      }
    }
  }

  /** Reading a text needs bytes from behind it exactly when, with quoting, its end cuts an escape
      off and nothing before is refused. */
  lemma AstrayIff(t: seq<Byte>, quoteok: bool)
    ensures ParseText(t, quoteok).Astray? <==> quoteok && CutsEscape(t, 0) && !ParseText(t, quoteok).Refused?
  {
    hide ReadName, CutsEscape;
    NameAstray(t, 0, quoteok, 0, []);
  }

  lemma CharStays(t: seq<Byte>, after: seq<Byte>, p: nat, quoteok: bool)
    requires p < |t| && !ReadChar(t, p, quoteok).Astray?
    ensures ReadChar(t + after, p, quoteok) == ReadChar(t, p, quoteok)
  {
  }

  lemma {:induction false} LabelStays(t: seq<Byte>, after: seq<Byte>, p: nat, quoteok: bool, soFar: seq<Byte>)
    requires p <= |t| && !ReadLabel(t, |t|, p, quoteok, soFar).Astray?
    ensures ReadLabel(t + after, |t|, p, quoteok, soFar) == ReadLabel(t, |t|, p, quoteok, soFar)
    decreases |t| - p
  {
    hide ReadChar;
    if p < |t| && t[p] != DOT {
      CharStays(t, after, p, quoteok);
      var r := ReadChar(t, p, quoteok);
      if r.Good? && (quoteok || !BadHostChar(r.value.0, |soFar|)) && |soFar| != MAX_LABEL_BUFFER {
        LabelStays(t, after, r.value.1, quoteok, soFar + [r.value.0]);
      }
    }
  }

  lemma {:induction false} NameStays(t: seq<Byte>, after: seq<Byte>, p: nat, quoteok: bool, nbytes: nat, labels: seq<seq<Byte>>)
    requires p <= |t| && !ReadName(t, |t|, p, quoteok, nbytes, labels).Astray?
    ensures ReadName(t + after, |t|, p, quoteok, nbytes, labels) == ReadName(t, |t|, p, quoteok, nbytes, labels)
    decreases |t| - p
  {
    hide ReadLabel;
    if p < |t| {
      LabelStays(t, after, p, quoteok, []);
      var r := ReadLabel(t, |t|, p, quoteok, []);
      if r.Good? && 0 < |r.value.0| <= DNS_MAXLABEL && nbytes + |r.value.0| + 1 < DNS_MAXDOMAIN {
        NameStays(t, after, r.value.1, quoteok, nbytes + |r.value.0| + 1, labels + [r.value.0]);
      }
    }
  }

  /** Whatever follows the text in memory, the reader stays within it, and reads the same, exactly
      when it needs no byte from behind. */
  lemma StaysWithin(t: seq<Byte>, quoteok: bool)
    ensures !ParseText(t, quoteok).Astray? <==> forall after :: !ParseBuffer(t + after, |t|, quoteok).Astray?
    ensures !ParseText(t, quoteok).Astray? ==> forall after :: ParseBuffer(t + after, |t|, quoteok) == ParseText(t, quoteok)
  {
    hide ReadName;
    assert t + [] == t;
    if !ParseText(t, quoteok).Astray? {
      forall after
        ensures ParseBuffer(t + after, |t|, quoteok) == ParseText(t, quoteok)
      {
        NameStays(t, after, 0, quoteok, 0, []);
      }
    } else {
      assert ParseBuffer(t + [], |t|, quoteok).Astray?;
    }
  }

  /** What ends an escape with a refusal: no digit, and no character a backslash could stand before. */
  predicate Stops(t: seq<Byte>, after: seq<Byte>) {
    after != [] && !IsDigit(after[0]) && (after[0] == 0 || t == [] || t[|t| - 1] != BACKSLASH)
  }

  lemma {:induction false} LabelStopped(t: seq<Byte>, after: seq<Byte>, p: nat, soFar: seq<Byte>)
    requires p <= |t| && Stops(t, after) && ReadLabel(t, |t|, p, true, soFar).Astray?
    ensures ReadLabel(t + after, |t|, p, true, soFar) == Refused(QueryDomainInvalid)
    decreases |t| - p
  {
    var r := ReadChar(t, p, true);
    if r.Good? {
      CharStays(t, after, p, true);
      LabelStopped(t, after, r.value.1, soFar + [r.value.0]);
    } else {
      assert forall i :: 0 <= i < |t| ==> (t + after)[i] == t[i];
      assert (t + after)[|t|] == after[0];
    }
  }

  lemma {:induction false} NameStopped(t: seq<Byte>, after: seq<Byte>, p: nat, nbytes: nat, labels: seq<seq<Byte>>)
    requires p <= |t| && Stops(t, after) && ReadName(t, |t|, p, true, nbytes, labels).Astray?
    ensures ReadName(t + after, |t|, p, true, nbytes, labels) == Refused(QueryDomainInvalid)
    decreases |t| - p
  {
    hide ReadLabel, Stops;
    var r := ReadLabel(t, |t|, p, true, []);
    if r.Good? {
      LabelStays(t, after, p, true, []);
      NameStopped(t, after, r.value.1, nbytes + |r.value.0| + 1, labels + [r.value.0]);
    } else {
      LabelStopped(t, after, p, []);
    }
  }

  /** Behind a C string is its NUL, and behind a name without its last dot is that dot: there a cut
      escape is refused. */
  lemma StoppedRefused(t: seq<Byte>, after: seq<Byte>, quoteok: bool)
    requires Stops(t, after)
    ensures ParseBuffer(t + after, |t|, quoteok)
         == if ParseText(t, quoteok).Astray? then Refused(QueryDomainInvalid) else ParseText(t, quoteok)
  {
    hide ReadName, Stops;
    if ParseText(t, quoteok).Astray? {
      NameAstray(t, 0, quoteok, 0, []);
      NameStopped(t, after, 0, 0, []);
    } else {
      NameStays(t, after, 0, quoteok, 0, []);
    }
  }

  /** The text a\ with, behind it, what an earlier search left there: the escape takes the dot for
      its character. */
  lemma CutEscapeStrays()
    ensures ParseBuffer([97, BACKSLASH, DOT, 98], 2, true) == Astray
    ensures ParseBuffer([97, BACKSLASH, 0], 2, true) == Refused(QueryDomainInvalid)
  {
    var m: seq<Byte>, c: seq<Byte> := [97, BACKSLASH, DOT, 98], [97, BACKSLASH, 0];
    assert ReadLabel(m, 2, 0, true, []) == ReadLabel(m, 2, 1, true, [97]);
    assert ReadLabel(c, 2, 0, true, []) == ReadLabel(c, 2, 1, true, [97]);
  }

  // ---------------------------------------------------------------- the wire form

  function WireLabels(labels: seq<seq<Byte>>): seq<Byte>
    requires forall i :: 0 <= i < |labels| ==> |labels[i]| < 256
  {
    if labels == [] then [] else [|labels[0]|] + labels[0] + WireLabels(labels[1..])
  }

  function LabelBytes(labels: seq<seq<Byte>>): nat {
    if labels == [] then 0 else 1 + |labels[0]| + LabelBytes(labels[1..])
  }

  predicate LabelSizes(labels: seq<seq<Byte>>) {
    forall i :: 0 <= i < |labels| ==> 0 < |labels[i]| <= DNS_MAXLABEL
  }

  lemma {:induction false} WireSize(labels: seq<seq<Byte>>)
    requires LabelSizes(labels)
    ensures |WireLabels(labels)| == LabelBytes(labels)
    decreases |labels|
  {
    if labels != [] {
      WireSize(labels[1..]);
    }
  }

  lemma {:induction false} LabelBytesAppend(labels: seq<seq<Byte>>, l: seq<Byte>)
    ensures LabelBytes(labels + [l]) == LabelBytes(labels) + |l| + 1
    decreases |labels|
  {
    if labels != [] {
      assert (labels + [l])[1..] == labels[1..] + [l];
      LabelBytesAppend(labels[1..], l);
    }
  }

  lemma {:induction false} WireAppend(labels: seq<seq<Byte>>, l: seq<Byte>)
    requires LabelSizes(labels) && 0 < |l| <= DNS_MAXLABEL
    ensures WireLabels(labels + [l]) == WireLabels(labels) + [|l|] + l
    decreases |labels|
  {
    if labels == [] {
      assert [l][1..] == [];
    } else {
      assert (labels + [l])[1..] == labels[1..] + [l];
      WireAppend(labels[1..], l);
    }
  }

  /** An accepted text gives labels of 1 to 63 bytes that fit 255 octets with the root. */
  lemma {:induction false} AcceptedSizes(m: seq<Byte>, n: nat, p: nat, quoteok: bool, nbytes: nat, labels: seq<seq<Byte>>)
    requires p <= n <= |m| && LabelSizes(labels) && nbytes == LabelBytes(labels) < DNS_MAXDOMAIN
    ensures var r := ReadName(m, n, p, quoteok, nbytes, labels);
      r.Good? ==> labels <= r.value && LabelSizes(r.value) && LabelBytes(r.value) + 1 <= DNS_MAXDOMAIN
    decreases n - p
  {
    hide ReadLabel;
    if p < n {
      var r := ReadLabel(m, n, p, quoteok, []);
      if r.Good? {
        var (l, p') := r.value;
        if 0 < |l| <= DNS_MAXLABEL && nbytes + |l| + 1 < DNS_MAXDOMAIN {
          LabelBytesAppend(labels, l);
          AcceptedSizes(m, n, p', quoteok, nbytes + |l| + 1, labels + [l]);
        }
      }
    }
  }

  /** The wire form reads back as the same labels, wherever it lies in a datagram. */
  lemma {:induction false} WireReadable(dg: seq<Byte>, pos: nat, labels: seq<seq<Byte>>)
    requires LabelSizes(labels) && At(dg, pos, WireLabels(labels) + [0])
    ensures NameAt(dg, pos, labels)
    ensures LinearEnd(dg, pos) == Some(pos + LabelBytes(labels) + 1)
    decreases |labels|
  {
    hide NameAt, LinearEnd;
    if labels == [] {
      assert dg[pos..pos + 1] == [0];
      NameAtRoot(dg, pos);
    } else {
      var l, rest := labels[0], WireLabels(labels[1..]) + [0];
      assert WireLabels(labels) + [0] == [|l|] + (l + rest);
      hide WireLabels, At;
      AtSplit(dg, pos, [|l|], l + rest);
      AtSplit(dg, pos + 1, l, rest);
      WireReadable(dg, pos + 1 + |l|, labels[1..]);
      NameAtStep(dg, pos, labels);
    }
  }

  lemma NameAtRoot(dg: seq<Byte>, pos: nat)
    requires pos < |dg| && dg[pos] == 0
    ensures NameAt(dg, pos, []) && LinearEnd(dg, pos) == Some(pos + 1)
  {
  }

  lemma NameAtStep(dg: seq<Byte>, pos: nat, labels: seq<seq<Byte>>)
    requires labels != [] && 0 < |labels[0]| <= DNS_MAXLABEL
    requires At(dg, pos, [|labels[0]|]) && At(dg, pos + 1, labels[0])
    requires NameAt(dg, pos + 1 + |labels[0]|, labels[1..])
    ensures NameAt(dg, pos, labels) && LinearEnd(dg, pos) == LinearEnd(dg, pos + 1 + |labels[0]|)
  {
    assert dg[pos] == dg[pos..pos + 1][0];
    assert Resolve(dg, pos) == Some(pos);
    hide NameAt;
    NameAtUnfold(dg, pos, labels);
  }

  lemma NameAtUnfold(dg: seq<Byte>, pos: nat, labels: seq<seq<Byte>>)
    requires labels != [] && pos < |dg| && 0 < dg[pos] <= DNS_MAXLABEL && pos + 1 + dg[pos] <= |dg|
    requires dg[pos + 1..pos + 1 + dg[pos]] == labels[0] && NameAt(dg, pos + 1 + dg[pos], labels[1..])
    ensures NameAt(dg, pos, labels)
  {
  }

  // ---------------------------------------------------------------- printing

  /** One byte as vbuf__append_quoted1035 prints it; the escape is octal. */
  function QuoteByte(ch: Byte): seq<Byte> {
    if ch <= 32 || ch >= 127 then [BACKSLASH, 48 + ch / 64, 48 + ch / 8 % 8, 48 + ch % 8]
    else if !Unquoted(ch) then [BACKSLASH, ch]
    else [ch]
  }

  /** What is printed as it is: letters, digits, hyphen, underscore, slash and plus. */
  lemma PrintedAsIs(ch: Byte)
    ensures QuoteByte(ch) == [ch] <==>
      48 <= ch <= 57 || 65 <= ch <= 90 || 97 <= ch <= 122 || ch in {45, 95, 47, 43}
    ensures |QuoteByte(ch)| in {1, 2, 4} && (|QuoteByte(ch)| == 2 ==> QuoteByte(ch) == [BACKSLASH, ch])
  {
  }

  function Quote(l: seq<Byte>): seq<Byte> {
    if l == [] then [] else QuoteByte(l[0]) + Quote(l[1..])
  }

  /** The labels in text, quoted, with dots between. */
  function PrintQuoted(labels: seq<seq<Byte>>): seq<Byte> {
    if labels == [] then []
    else if |labels| == 1 then Quote(labels[0])
    else Quote(labels[0]) + ([DOT] + PrintQuoted(labels[1..]))
  }

  function PrintPlain(labels: seq<seq<Byte>>): seq<Byte> {
    if labels == [] then []
    else if |labels| == 1 then labels[0]
    else labels[0] + ([DOT] + PrintPlain(labels[1..]))
  }

  /** What mkquery makes of a printed byte: the octal digits are read as decimal ones. */
  function Reread(ch: Byte): Option<Byte> {
    if ch <= 32 || ch >= 127 then
      var n := Decimal(48 + ch / 64, 48 + ch / 8 % 8, 48 + ch % 8);
      if n >= 256 then None else Some(n)
    else Some(ch)
  }

  /** The bytes that survive. */
  predicate Faithful(ch: Byte) {
    33 <= ch <= 126 || ch < 8
  }

  lemma FaithfulIff(ch: Byte)
    ensures Faithful(ch) <==> Reread(ch) == Some(ch)
  {
    var a, b, c := ch / 64, ch / 8 % 8, ch % 8;
    assert ch / 8 / 8 == a;
    assert ch == 64 * a + 8 * b + c;
    assert Decimal(48 + a, 48 + b, 48 + c) == ch + 36 * a + 2 * b;
  }

  function RereadLabel(l: seq<Byte>): Option<seq<Byte>> {
    if l == [] then Some([])
    else
      var c, rest := Reread(l[0]), RereadLabel(l[1..]);
      if c.None? || rest.None? then None else Some([c.value] + rest.value)
  }

  lemma {:induction false} RereadSame(l: seq<Byte>)
    ensures RereadLabel(l).Some? ==> |RereadLabel(l).value| == |l|
    ensures RereadLabel(l) == Some(l) <==> forall i :: 0 <= i < |l| ==> Faithful(l[i])
  {
    hide Reread;
    if l != [] {
      RereadSame(l[1..]);
      FaithfulIff(l[0]);
      assert l == [l[0]] + l[1..];
    }
  }

  lemma ReadCharOfQuoted(t: seq<Byte>, p: nat, ch: Byte)
    requires At(t, p, QuoteByte(ch))
    ensures p < |t| && t[p] != DOT
    ensures ReadChar(t, p, true)
         == if Reread(ch).Some? then Good((Reread(ch).value, p + |QuoteByte(ch)|)) else Refused(QueryDomainInvalid)
  {
    var q := QuoteByte(ch);
    var w := t[p..p + |q|];
    assert w[0] == t[p] && (|q| > 1 ==> w[1] == t[p + 1]) && (|q| > 2 ==> w[2] == t[p + 2] && w[3] == t[p + 3]);
  }

  /** A printed label is read to its end, byte by byte. */
  lemma {:induction false} ReadLabelOfQuoted(t: seq<Byte>, p: nat, l: seq<Byte>, done: seq<Byte>)
    requires At(t, p, Quote(l)) && |done| + |l| <= MAX_LABEL_BUFFER
    requires p + |Quote(l)| < |t| ==> t[p + |Quote(l)|] == DOT
    ensures var q := p + |Quote(l)|;
      ReadLabel(t, |t|, p, true, done)
      == if RereadLabel(l).Some? then Good((done + RereadLabel(l).value, if q < |t| then q + 1 else q))
         else Refused(QueryDomainInvalid)
    decreases |l|
  {
    hide QuoteByte, Reread, ReadChar;
    if l == [] {
      assert done + [] == done;
    } else {
      AtSplit(t, p, QuoteByte(l[0]), Quote(l[1..]));
      ReadCharOfQuoted(t, p, l[0]);
      if Reread(l[0]).Some? {
        var c := Reread(l[0]).value;
        ReadLabelOfQuoted(t, p + |QuoteByte(l[0])|, l[1..], done + [c]);
        if RereadLabel(l[1..]).Some? {
          assert done + ([c] + RereadLabel(l[1..]).value) == done + [c] + RereadLabel(l[1..]).value;
        }
      }
    }
  }

  function RereadName(labels: seq<seq<Byte>>): Option<seq<seq<Byte>>> {
    if labels == [] then Some([])
    else
      var l, rest := RereadLabel(labels[0]), RereadName(labels[1..]);
      if l.None? || rest.None? then None else Some([l.value] + rest.value)
  }

  ghost predicate AllFaithful(labels: seq<seq<Byte>>) {
    forall i, j :: 0 <= i < |labels| && 0 <= j < |labels[i]| ==> Faithful(labels[i][j])
  }

  lemma {:induction false} RereadNameSame(labels: seq<seq<Byte>>)
    ensures RereadName(labels) == Some(labels) <==> AllFaithful(labels)
    decreases |labels|
  {
    hide RereadLabel, Faithful;
    if labels != [] {
      var tail := labels[1..];
      RereadNameSame(tail);
      RereadSame(labels[0]);
      assert labels == [labels[0]] + tail;
      assert AllFaithful(labels) ==> AllFaithful(tail);
      if AllFaithful(tail) && forall j :: 0 <= j < |labels[0]| ==> Faithful(labels[0][j]) {
        forall i, j | 0 <= i < |labels| && 0 <= j < |labels[i]|
          ensures Faithful(labels[i][j])
        {
          if i > 0 {
            assert labels[i] == tail[i - 1];
          }
        }
      }
    }
  }

  lemma {:induction false} QuoteGrows(l: seq<Byte>)
    ensures |Quote(l)| >= |l|
  {
    if l != [] {
      QuoteGrows(l[1..]);
    }
  }

  /** One label of a printed name is read, together with the dot that ends it. */
  lemma QuotedHead(t: seq<Byte>, p: nat, labels: seq<seq<Byte>>)
    requires labels != [] && LabelSizes(labels)
    requires At(t, p, PrintQuoted(labels)) && p + |PrintQuoted(labels)| == |t|
    ensures p < |t|
    ensures var q := if |labels| == 1 then |t| else p + |Quote(labels[0])| + 1;
      && q <= |t| && At(t, q, PrintQuoted(labels[1..])) && q + |PrintQuoted(labels[1..])| == |t|
      && ReadLabel(t, |t|, p, true, [])
         == if RereadLabel(labels[0]).Some? then Good((RereadLabel(labels[0]).value, q)) else Refused(QueryDomainInvalid)
  {
    hide Quote, ReadLabel, RereadLabel;
    QuoteGrows(labels[0]);
    if |labels| > 1 {
      AtSplit(t, p, Quote(labels[0]), [DOT] + PrintQuoted(labels[1..]));
      AtSplit(t, p + |Quote(labels[0])|, [DOT], PrintQuoted(labels[1..]));
      var q := p + |Quote(labels[0])|;
      assert t[q..q + 1] == [DOT];
    }
    ReadLabelOfQuoted(t, p, labels[0], []);
    if RereadLabel(labels[0]).Some? {
      assert [] + RereadLabel(labels[0]).value == RereadLabel(labels[0]).value;
    }
  }

  lemma {:induction false} QuotedRead(t: seq<Byte>, p: nat, labels: seq<seq<Byte>>, nbytes: nat, done: seq<seq<Byte>>)
    requires LabelSizes(labels) && nbytes < DNS_MAXDOMAIN
    requires At(t, p, PrintQuoted(labels)) && p + |PrintQuoted(labels)| == |t|
    ensures var r := ReadName(t, |t|, p, true, nbytes, done);
      if RereadName(labels).Some? && nbytes + LabelBytes(labels) < DNS_MAXDOMAIN
      then r == Good(done + RereadName(labels).value) else r.Refused?
    decreases |labels|
  {
    hide ReadLabel, RereadLabel, PrintQuoted, At;
    if labels == [] {
      PrintedNothing();
      assert done + [] == done;
    } else {
      QuotedHead(t, p, labels);
      RereadSame(labels[0]);
      var l := RereadLabel(labels[0]);
      if l.Some? && nbytes + |labels[0]| + 1 < DNS_MAXDOMAIN {
        var q := ReadLabel(t, |t|, p, true, []).value.1;
        QuotedRead(t, q, labels[1..], nbytes + |labels[0]| + 1, done + [l.value]);
        if RereadName(labels[1..]).Some? {
          assert done + ([l.value] + RereadName(labels[1..]).value) == done + [l.value] + RereadName(labels[1..]).value;
        }
      }
    }
  }

  lemma PrintedNothing()
    ensures PrintQuoted([]) == [] && PrintPlain([]) == []
  {
  }

  /** Printed and read again, a name comes back exactly when it fits a query and holds no byte
      whose octal escape means something else in decimal. */
  lemma QuotedRoundTrip(labels: seq<seq<Byte>>)
    requires LabelSizes(labels)
    ensures ParseText(PrintQuoted(labels), true) == Good(labels)
       <==> AllFaithful(labels) && LabelBytes(labels) + 1 <= DNS_MAXDOMAIN
  {
    hide ReadName, RereadName, AllFaithful, PrintQuoted, LabelBytes;
    QuotedRead(PrintQuoted(labels), 0, labels, 0, []);
    RereadNameSame(labels);
    if RereadName(labels).Some? {
      assert [] + RereadName(labels).value == RereadName(labels).value;
    }
  }

  // ---------------------------------------------------------------- strict host names

  predicate HostLabel(l: seq<Byte>) {
    && l != [] && IsAlnum(l[0])
    && forall i :: 0 <= i < |l| ==> IsAlnum(l[i]) || l[i] == HYPHEN
  }

  /** Letters, digits and hyphens, no hyphen first (section 2.3.1 of RFC 1035, and digits may come first). */
  lemma HostCharacters(l: seq<Byte>)
    ensures HostLabel(l) <==>
      && l != [] && l[0] != 45
      && forall i :: 0 <= i < |l| ==> l[i] == 45 || 48 <= l[i] <= 57 || 65 <= l[i] <= 90 || 97 <= l[i] <= 122
  {
  }

  predicate HostName(labels: seq<seq<Byte>>) {
    forall i :: 0 <= i < |labels| ==> HostLabel(labels[i])
  }

  lemma {:induction false} ReadLabelOfHost(t: seq<Byte>, p: nat, l: seq<Byte>, k: nat)
    requires HostLabel(l) && |l| <= MAX_LABEL_BUFFER && At(t, p, l) && k <= |l|
    requires p + |l| < |t| ==> t[p + |l|] == DOT
    ensures ReadLabel(t, |t|, p + k, false, l[..k]) == Good((l, if p + |l| < |t| then p + |l| + 1 else p + |l|))
    decreases |l| - k
  {
    if k == |l| {
      assert l[..k] == l;
    } else {
      assert t[p..p + |l|][k] == t[p + k];
      assert l[..k + 1] == l[..k] + [l[k]];
      ReadLabelOfHost(t, p, l, k + 1);
    }
  }

  lemma {:induction false} PlainRead(t: seq<Byte>, p: nat, labels: seq<seq<Byte>>, nbytes: nat, done: seq<seq<Byte>>)
    requires LabelSizes(labels) && HostName(labels) && nbytes < DNS_MAXDOMAIN
    requires At(t, p, PrintPlain(labels)) && p + |PrintPlain(labels)| == |t|
    ensures ReadName(t, |t|, p, false, nbytes, done)
         == if nbytes + LabelBytes(labels) < DNS_MAXDOMAIN then Good(done + labels) else Refused(QueryDomainTooLong)
    decreases |labels|
  {
    hide ReadLabel, HostLabel;
    if labels == [] {
      assert done + [] == done;
    } else {
      var l := labels[0];
      if |labels| > 1 {
        AtSplit(t, p, l, [DOT] + PrintPlain(labels[1..]));
        AtSplit(t, p + |l|, [DOT], PrintPlain(labels[1..]));
        assert t[p + |l|..p + |l| + 1] == [DOT];
      }
      assert l[..0] == [];
      ReadLabelOfHost(t, p, l, 0);
      var q := if p + |l| < |t| then p + |l| + 1 else p + |l|;
      if nbytes + |l| + 1 < DNS_MAXDOMAIN {
        PlainRead(t, q, labels[1..], nbytes + |l| + 1, done + [l]);
        assert done + labels == done + [l] + labels[1..];
      }
    }
  }

  lemma PlainRoundTrip(labels: seq<seq<Byte>>)
    requires LabelSizes(labels) && HostName(labels)
    ensures ParseText(PrintPlain(labels), false) == Good(labels) <==> LabelBytes(labels) + 1 <= DNS_MAXDOMAIN
  {
    hide ReadName, PrintPlain, LabelBytes, HostName;
    PlainRead(PrintPlain(labels), 0, labels, 0, []);
    assert [] + labels == labels;
  }

  /** Without quoting only strict host names are accepted. */
  lemma {:induction false} ReadLabelIsHost(m: seq<Byte>, n: nat, p: nat, done: seq<Byte>)
    requires p <= n <= |m| && (done == [] || HostLabel(done))
    ensures var r := ReadLabel(m, n, p, false, done); r.Good? ==> r.value.0 == [] || HostLabel(r.value.0)
    decreases n - p
  {
    if p < n && m[p] != DOT {
      var r := ReadChar(m, p, false);
      if r.Good? && !BadHostChar(r.value.0, |done|) && |done| != MAX_LABEL_BUFFER && r.value.1 <= n {
        assert HostLabel(done + [r.value.0]) by {
          assert done != [] ==> (done + [r.value.0])[0] == done[0];
        }
        ReadLabelIsHost(m, n, r.value.1, done + [r.value.0]);
      }
    }
  }

  lemma {:induction false} AcceptedIsHost(m: seq<Byte>, n: nat, p: nat, nbytes: nat, done: seq<seq<Byte>>)
    requires p <= n <= |m| && HostName(done)
    ensures var r := ReadName(m, n, p, false, nbytes, done); r.Good? ==> HostName(r.value)
    decreases n - p
  {
    hide ReadLabel, HostLabel;
    if p < n {
      ReadLabelIsHost(m, n, p, []);
      var r := ReadLabel(m, n, p, false, []);
      if r.Good? && 0 < |r.value.0| <= DNS_MAXLABEL && nbytes + |r.value.0| + 1 < DNS_MAXDOMAIN {
        AcceptedIsHost(m, n, r.value.1, nbytes + |r.value.0| + 1, done + [r.value.0]);
      }
    }
  }
}
