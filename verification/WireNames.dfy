/** Domain names inside DNS messages: the label walk with compression pointers, and the comparison
    of two names label by label. */
module WireNames {
  import opened Bytes
  import opened Sequences

  const DNS_MAXLABEL: nat := 63
  const DNS_MAXDOMAIN: nat := 255

  // ---------------------------------------------------------------- the reference reading

  /** The offset in a two-byte pointer. */
  function Target(hi: int, lo: Byte): nat
    requires hi >= 192
  {
    (hi - 192) * 256 + lo
  }

  predicate IsPointer(dg: seq<Byte>, pos: nat) {
    pos + 1 < |dg| && dg[pos] >= 192
  }

  /** Follow at most `left` pointers (section 4.1.4 of RFC 1035) to a label. */
  function ResolveIn(dg: seq<Byte>, pos: nat, left: nat): (r: Option<nat>)
    ensures r.Some? ==> r.value < |dg| && dg[r.value] < 192
    decreases left
  {
    if pos >= |dg| then None
    else if dg[pos] < 192 then Some(pos)
    else if !IsPointer(dg, pos) || left == 0 then None
    else ResolveIn(dg, Target(dg[pos], dg[pos + 1]), left - 1)
  }

  /** Follow pointers to a label. More pointers than the message has bytes go round in a circle. */
  function Resolve(dg: seq<Byte>, pos: nat): (r: Option<nat>)
    ensures r.Some? ==> r.value < |dg| && dg[r.value] < 192
  {
    ResolveIn(dg, pos, |dg|)
  }

  /** The name at pos has exactly these labels. */
  predicate NameAt(dg: seq<Byte>, pos: nat, labels: seq<seq<Byte>>)
    decreases |labels|
  {
    var r := Resolve(dg, pos);
    r.Some? &&
    var n := dg[r.value];
    if labels == [] then n == 0
    else
      && 0 < n <= DNS_MAXLABEL && r.value + 1 + n <= |dg|
      && dg[r.value + 1..r.value + 1 + n] == labels[0]
      && NameAt(dg, r.value + 1 + n, labels[1..])
  }

  lemma {:induction false} NameAtUnique(dg: seq<Byte>, pos: nat, a: seq<seq<Byte>>, b: seq<seq<Byte>>)
    requires NameAt(dg, pos, a) && NameAt(dg, pos, b)
    ensures a == b
    decreases |a|
  {
    if a != [] && b != [] {
      var r := Resolve(dg, pos).value;
      NameAtUnique(dg, r + 1 + dg[r], a[1..], b[1..]);
      assert a == [a[0]] + a[1..] && b == [b[0]] + b[1..];
    }
  }

  /** Where the part of the name that is not behind a pointer ends. */
  function LinearEnd(dg: seq<Byte>, pos: nat): Option<nat>
    decreases |dg| - pos
  {
    if pos >= |dg| then None
    else if dg[pos] == 0 then Some(pos + 1)
    else if dg[pos] >= 192 then Some(pos + 2)
    else LinearEnd(dg, pos + 1 + dg[pos])
  }

  /** The length the walk accounts for: the labels and the dots between them. */
  function TextLength(namelen: nat, labels: seq<seq<Byte>>): nat
    decreases |labels|
  {
    if labels == [] then namelen
    else TextLength((if namelen > 0 then namelen + 1 else 0) + |labels[0]|, labels[1..])
  }

  // ---------------------------------------------------------------- one step of the walk

  datatype Cursor = Cursor(cbyte: nat, namelen: nat, max: nat, dmend: Option<nat>, jumped: bool)

  /** Endless: the pointers go round in a circle, and so does the code. */
  datatype Step =
    | Label(start: nat, len: nat)
    | Root
    | Truncated
    | BadResponse
    | UnknownFormat
    | DomainTooLong
    | Endless

  /** adns__findlabel_next, with `left` pointers still to follow. dmend is the value the caller's dmend
      variable was given, if it was. */
  function NextLabelIn(dg: seq<Byte>, c: Cursor, left: nat): (Step, Cursor)
    decreases left
  {
    if c.cbyte >= |dg| then (Truncated, c)
    else if c.cbyte >= c.max then (BadResponse, c)
    else
      var lablen := dg[c.cbyte];
      if lablen >= 192 then
        if c.cbyte + 1 >= |dg| then (Truncated, c)
        else if c.cbyte + 1 >= c.max then (BadResponse, c)
        else if left == 0 then (Endless, c)
        else NextLabelIn(dg, Jump(dg, c, Target(lablen, dg[c.cbyte + 1])), left - 1)
      else Here(dg, c)
  }

  /** A step that follows no pointer. */
  function Here(dg: seq<Byte>, c: Cursor): (Step, Cursor)
    requires c.cbyte < |dg| && dg[c.cbyte] < 192
  {
    var lablen := dg[c.cbyte];
    if lablen > DNS_MAXLABEL then (UnknownFormat, c)
    else if lablen == 0 then
      (Root, c.(cbyte := c.cbyte + 1, dmend := if c.jumped then c.dmend else Some(c.cbyte + 1)))
    else
      var namelen := (if c.namelen > 0 then c.namelen + 1 else 0) + lablen;
      if namelen > DNS_MAXDOMAIN then (DomainTooLong, c)
      else if c.cbyte + 1 + lablen > |dg| then (Truncated, c)
      else if c.cbyte + 1 + lablen > c.max then (BadResponse, c)
      else (Label(c.cbyte + 1, lablen), c.(cbyte := c.cbyte + 1 + lablen, namelen := namelen))
  }

  lemma NextIs(dg: seq<Byte>, c: Cursor, left: nat)
    ensures c.cbyte >= |dg| ==> NextLabelIn(dg, c, left).0 == Truncated
    ensures c.max <= c.cbyte < |dg| ==> NextLabelIn(dg, c, left).0 == BadResponse
    ensures c.cbyte < |dg| && c.cbyte < c.max && dg[c.cbyte] >= 192 ==>
      if c.cbyte + 1 >= |dg| then NextLabelIn(dg, c, left).0 == Truncated
      else if c.cbyte + 1 >= c.max then NextLabelIn(dg, c, left).0 == BadResponse
      else if left == 0 then NextLabelIn(dg, c, left).0 == Endless
      else NextLabelIn(dg, c, left) == NextLabelIn(dg, Jump(dg, c, Target(dg[c.cbyte], dg[c.cbyte + 1])), left - 1)
    ensures c.cbyte < |dg| && c.cbyte < c.max && dg[c.cbyte] < 192 ==> NextLabelIn(dg, c, left) == Here(dg, c)
  {
  }

  function NextLabel(dg: seq<Byte>, c: Cursor): (Step, Cursor) {
    NextLabelIn(dg, c, |dg|)
  }

  function Jump(dg: seq<Byte>, c: Cursor, target: nat): Cursor {
    Cursor(target, c.namelen, |dg| + 1, if c.jumped then c.dmend else Some(c.cbyte + 2), true)
  }

  // ---------------------------------------------------------------- the whole walk

  datatype Walked = Walked(labels: seq<seq<Byte>>, end: Cursor) | Stopped(why: Step)

  function Walk(dg: seq<Byte>, c: Cursor): Walked
    decreases DNS_MAXDOMAIN + 1 - c.namelen
  {
    var (step, c') := NextLabel(dg, c);
    match step
    case Root => Walked([], c')
    case Label(start, len) =>
      NextLabelGrows(dg, c);
      (match Walk(dg, c')
       case Walked(labels, end) => Walked([dg[start..start + len]] + labels, end)
       case Stopped(why) => Stopped(why))
    case _ => Stopped(step)
  }

  lemma {:induction false} GrowsIn(dg: seq<Byte>, c: Cursor, left: nat)
    ensures var (step, c') := NextLabelIn(dg, c, left);
      step.Label? ==>
        && step.start + step.len <= |dg| && 0 < step.len <= DNS_MAXLABEL
        && c.namelen < c'.namelen <= DNS_MAXDOMAIN && c'.cbyte == step.start + step.len
        && c'.namelen == (if c.namelen > 0 then c.namelen + 1 else 0) + step.len
    decreases left
  {
    if IsPointer(dg, c.cbyte) && c.cbyte + 1 < c.max && left > 0 {
      GrowsIn(dg, Jump(dg, c, Target(dg[c.cbyte], dg[c.cbyte + 1])), left - 1);
    }
  }

  lemma NextLabelGrows(dg: seq<Byte>, c: Cursor)
    ensures var (step, c') := NextLabel(dg, c);
      step.Label? ==>
        && step.start + step.len <= |dg| && 0 < step.len <= DNS_MAXLABEL
        && c.namelen < c'.namelen <= DNS_MAXDOMAIN && c'.cbyte == step.start + step.len
        && c'.namelen == (if c.namelen > 0 then c.namelen + 1 else 0) + step.len
  {
    hide NextLabelIn;
    GrowsIn(dg, c, |dg|);
  }

  /** What holds of every cursor a walk goes through: behind a pointer the limit is gone. */
  predicate Sane(dg: seq<Byte>, c: Cursor) {
    c.jumped ==> c.max >= |dg| && c.dmend.Some?
  }

  /** The part of the name before any pointer ends within the limit. */
  predicate Fits(dg: seq<Byte>, c: Cursor) {
    c.jumped || (LinearEnd(dg, c.cbyte).Some? && LinearEnd(dg, c.cbyte).value <= c.max)
  }

  /** One step, from c to c', where the pointers lead to r: it reaches the label there, and only a jump
      changes the reported end. */
  predicate Reaches(dg: seq<Byte>, c: Cursor, r: Option<nat>, step: Step, c': Cursor)
    requires r.Some? ==> r.value < |dg|
  {
    && (step.Root? || step.Label? ==> r.Some?)
    && (step.Root? ==> Fits(dg, c) && c'.dmend.Some?)
    && (step.Root? ==> c'.dmend == if c.jumped then c.dmend else LinearEnd(dg, c.cbyte))
    && (r.Some? ==>
      var n := dg[r.value];
      var namelen := (if c.namelen > 0 then c.namelen + 1 else 0) + n;
      && (step.Root? ==> n == 0) && (n == 0 && Fits(dg, c) ==> step.Root?)
      && (step.Label? ==> 0 < n <= DNS_MAXLABEL && namelen <= DNS_MAXDOMAIN && r.value + 1 + n <= |dg|)
      && (0 < n <= DNS_MAXLABEL && namelen <= DNS_MAXDOMAIN && r.value + 1 + n <= |dg| && Fits(dg, c) ==> step.Label?)
      && (step.Label? ==> step == Label(r.value + 1, n) && c'.cbyte == r.value + 1 + n))
    && (step.Label? ==>
      && Sane(dg, c') && (c.jumped ==> c'.jumped && c'.dmend == c.dmend)
      && (!c.jumped ==> if c'.jumped then c'.dmend == LinearEnd(dg, c.cbyte) && Fits(dg, c)
                        else LinearEnd(dg, c'.cbyte) == LinearEnd(dg, c.cbyte) && c'.max == c.max))
  }

  lemma {:induction false} ReachesIn(dg: seq<Byte>, c: Cursor, left: nat)
    requires Sane(dg, c)
    ensures var (step, c') := NextLabelIn(dg, c, left); Reaches(dg, c, ResolveIn(dg, c.cbyte, left), step, c')
    decreases left
  {
    LinearEndGrows(dg, c.cbyte);
    if c.cbyte < |dg| && dg[c.cbyte] < 192 {
      LinearEndGrows(dg, c.cbyte + 1 + dg[c.cbyte]);
    }
    if IsPointer(dg, c.cbyte) && c.cbyte + 1 < c.max && left > 0 {
      ReachesIn(dg, Jump(dg, c, Target(dg[c.cbyte], dg[c.cbyte + 1])), left - 1);
    }
  }

  lemma NextLabelResolves(dg: seq<Byte>, c: Cursor)
    requires Sane(dg, c)
    ensures var (step, c') := NextLabel(dg, c); Reaches(dg, c, Resolve(dg, c.cbyte), step, c')
  {
    hide NextLabelIn, ResolveIn, Reaches;
    ReachesIn(dg, c, |dg|);
  }

  lemma {:induction false} LinearEndGrows(dg: seq<Byte>, pos: nat)
    ensures LinearEnd(dg, pos).Some? ==> LinearEnd(dg, pos).value > pos
    decreases |dg| - pos
  {
    if pos < |dg| && 0 < dg[pos] < 192 {
      LinearEndGrows(dg, pos + 1 + dg[pos]);
    }
  }

  /** The walk yields a name exactly when the reference reading has it, it is not too long, and its
      uncompressed part keeps to the limit; and it reports the end of that part. */
  lemma {:induction false} WalkIsName(dg: seq<Byte>, c: Cursor, labels: seq<seq<Byte>>)
    requires Sane(dg, c) && c.namelen <= DNS_MAXDOMAIN
    ensures Walk(dg, c).Walked? && Walk(dg, c).labels == labels
       <==> NameAt(dg, c.cbyte, labels) && TextLength(c.namelen, labels) <= DNS_MAXDOMAIN && Fits(dg, c)
    ensures Walk(dg, c).Walked? ==> Walk(dg, c).end.dmend.Some?
    ensures Walk(dg, c).Walked? ==> Walk(dg, c).end.dmend == if c.jumped then c.dmend else LinearEnd(dg, c.cbyte)
    decreases DNS_MAXDOMAIN + 1 - c.namelen
  {
    hide Resolve, NextLabel, LinearEnd;
    NextLabelGrows(dg, c);
    NextLabelResolves(dg, c);
    var (step, c') := NextLabel(dg, c);
    if step.Label? {
      if labels != [] {
        WalkIsName(dg, c', labels[1..]);
        LengthMonotone(c'.namelen, labels[1..]);
        assert labels == [labels[0]] + labels[1..];
      } else {
        WalkIsName(dg, c', []);
      }
      if Walk(dg, c').Walked? {
        WalkIsName(dg, c', Walk(dg, c').labels);
      }
    } else if labels != [] {
      LengthMonotone((if c.namelen > 0 then c.namelen + 1 else 0) + |labels[0]|, labels[1..]);
    }
  }

  /** A name of the datagram keeps to the limit at the datagram's end. */
  lemma {:induction false} NameFits(dg: seq<Byte>, pos: nat, labels: seq<seq<Byte>>)
    requires NameAt(dg, pos, labels)
    ensures LinearEnd(dg, pos).Some? && LinearEnd(dg, pos).value <= |dg|
    decreases |labels|
  {
    if dg[pos] < 192 && labels != [] {
      NameFits(dg, pos + 1 + dg[pos], labels[1..]);
    }
  }

  lemma {:induction false} LengthMonotone(namelen: nat, labels: seq<seq<Byte>>)
    ensures TextLength(namelen, labels) >= namelen
    decreases |labels|
  {
    if labels != [] {
      LengthMonotone((if namelen > 0 then namelen + 1 else 0) + |labels[0]|, labels[1..]);
    }
  }

  // ---------------------------------------------------------------- names where they lie

  /** The walk from a position, with the whole datagram as the limit. */
  function WalkAt(dg: seq<Byte>, pos: nat): Walked {
    Walk(dg, Cursor(pos, 0, |dg|, None, false))
  }

  datatype Place = Place(dgram: seq<Byte>, begin: nat)

  predicate Readable(p: Place) {
    WalkAt(p.dgram, p.begin).Walked?
  }

  /** A name that was walked before. */
  type Located = p: Place | Readable(p) witness Place([0], 0)

  function LabelsAt(p: Located): seq<seq<Byte>> {
    WalkAt(p.dgram, p.begin).labels
  }

  // ---------------------------------------------------------------- circles of pointers

  /** Where k pointers in a row lead. */
  function Hop(dg: seq<Byte>, pos: nat, k: nat): Option<nat>
    decreases k
  {
    if k == 0 then Some(pos)
    else if IsPointer(dg, pos) then Hop(dg, Target(dg[pos], dg[pos + 1]), k - 1)
    else None
  }

  /** One pointer leads to the next for ever. */
  ghost predicate Circles(dg: seq<Byte>, pos: nat) {
    forall k: nat :: Hop(dg, pos, k).Some?
  }

  lemma {:induction false} HopSum(dg: seq<Byte>, pos: nat, a: nat, b: nat)
    ensures Hop(dg, pos, a + b) == if Hop(dg, pos, a).Some? then Hop(dg, Hop(dg, pos, a).value, b) else None
    decreases a
  {
    if a > 0 && IsPointer(dg, pos) {
      HopSum(dg, Target(dg[pos], dg[pos + 1]), a - 1, b);
    }
  }

  /** Where two numbers of pointers lead to the same place, there is always a further one. */
  lemma {:induction false} HopRound(dg: seq<Byte>, pos: nat, i: nat, j: nat, k: nat)
    requires i < j && Hop(dg, pos, j).Some? && Hop(dg, pos, i) == Hop(dg, pos, j)
    ensures Hop(dg, pos, k).Some?
    decreases k
  {
    if k <= j {
      HopSum(dg, pos, k, j - k);
    } else {
      HopRound(dg, pos, i, j, k - (j - i));
      HopSum(dg, pos, j, k - j);
      HopSum(dg, pos, i, k - j);
    }
  }

  lemma ManyHopsCircle(dg: seq<Byte>, pos: nat)
    requires Hop(dg, pos, |dg| + 1).Some?
    ensures Circles(dg, pos)
  {
    hide Hop;
    var n := |dg| + 1;
    forall i: nat | i < n
      ensures Hop(dg, pos, i).Some? && Hop(dg, pos, i).value < |dg|
    {
      HopSum(dg, pos, i, n - i);
      HopSum(dg, pos, i, 1);
      HopSum(dg, pos, i + 1, n - i - 1);
      HopsFrom(dg, Hop(dg, pos, i).value);
    }
    var places := seq(n, i requires 0 <= i < n => Hop(dg, pos, i).value);
    Pigeonhole(places, |dg|);
    var i, j :| 0 <= i < j < n && places[i] == places[j];
    forall k: nat
      ensures Hop(dg, pos, k).Some?
    {
      HopRound(dg, pos, i, j, k);
    }
  }

  lemma HopsFrom(dg: seq<Byte>, pos: nat)
    ensures Hop(dg, pos, 1).Some? <==> IsPointer(dg, pos)
  {
    assert Hop(dg, pos, 0).Some?;
    if IsPointer(dg, pos) {
      assert Hop(dg, Target(dg[pos], dg[pos + 1]), 0).Some?;
    }
  }

  lemma {:induction false} EndlessIn(dg: seq<Byte>, c: Cursor, left: nat)
    ensures NextLabelIn(dg, c, left).0.Endless? <==> Hop(dg, c.cbyte, left + 1).Some? && c.cbyte + 1 < c.max
    decreases left
  {
    if IsPointer(dg, c.cbyte) && c.cbyte + 1 < c.max {
      if left == 0 {
        HopsFrom(dg, c.cbyte);
      } else {
        EndlessIn(dg, Jump(dg, c, Target(dg[c.cbyte], dg[c.cbyte + 1])), left - 1);
      }
    }
  }

  /** The step does not end exactly where the pointers go round in a circle. */
  lemma EndlessIffCircle(dg: seq<Byte>, c: Cursor)
    ensures NextLabel(dg, c).0.Endless? <==> Circles(dg, c.cbyte) && c.cbyte + 1 < c.max
  {
    hide Hop, NextLabelIn;
    EndlessIn(dg, c, |dg|);
    if Hop(dg, c.cbyte, |dg| + 1).Some? {
      ManyHopsCircle(dg, c.cbyte);
    }
  }

  // ---------------------------------------------------------------- the cursor and its loops

  class FindLabelState {
    const dgram: seq<Byte>
    var cbyte: nat
    var namelen: nat
    var max: nat
    /** The caller's variable that dmend_r points to, and whether dmend_r still does. */
    var dmend: Option<nat>
    var jumped: bool

    ghost function View(): Cursor
      reads this
    {
      Cursor(cbyte, namelen, max, dmend, jumped)
    }

    /** adns__findlabel_start. */
    constructor (dgram: seq<Byte>, max: nat, dmbegin: nat)
      ensures this.dgram == dgram && View() == Cursor(dmbegin, 0, max, None, false)
    {
      this.dgram := dgram;
      this.max, cbyte, namelen, dmend, jumped := max, dmbegin, 0, None, false;
    }

    /** adns__findlabel_next. Where the code would go round in a circle of pointers, the method says
        so. */
    method Next() returns (step: Step)
      modifies this
      ensures step == NextLabel(dgram, old(View())).0
      ensures step.Label? || step.Root? ==> View() == NextLabel(dgram, old(View())).1
    {
      hide NextLabelIn;
      ghost var start := View();
      var lablen: nat;
      var left: nat := |dgram|;
      while true
        invariant NextLabelIn(dgram, View(), left) == NextLabel(dgram, start)
        decreases left
      {
        NextIs(dgram, View(), left);
        if cbyte >= |dgram| {
          return Truncated;
        }
        if cbyte >= max {
          return BadResponse;
        }
        lablen := dgram[cbyte];
        if lablen <= DNS_MAXLABEL {
          break;
        }
        if lablen < 192 {
          return UnknownFormat;
        }
        if cbyte + 1 >= |dgram| {
          return Truncated;
        }
        if cbyte + 1 >= max {
          return BadResponse;
        }
        if left == 0 {
          return Endless;
        }
        var jumpto := Target(lablen, dgram[cbyte + 1]);
        if !jumped {
          dmend := Some(cbyte + 2);
        }
        cbyte, jumped, max, left := jumpto, true, |dgram| + 1, left - 1;
      }
      cbyte := cbyte + 1;
      if lablen == 0 {
        if !jumped {
          dmend := Some(cbyte);
        }
        return Root;
      }
      if namelen > 0 {
        namelen := namelen + 1;
      }
      namelen := namelen + lablen;
      if namelen > DNS_MAXDOMAIN {
        return DomainTooLong;
      }
      step := Label(cbyte, lablen);
      cbyte := cbyte + lablen;
      if cbyte > |dgram| {
        return Truncated;
      }
      if cbyte > max {
        return BadResponse;
      }
    }
  }

  // ---------------------------------------------------------------- comparing two names

  predicate IsAlpha(ch: Byte) {
    65 <= ch <= 90 || 97 <= ch <= 122
  }

  /** ch & ~32 on letters. */
  function Fold(ch: Byte): Byte {
    if 97 <= ch <= 122 then ch - 32 else ch
  }

  function FoldLabel(s: seq<Byte>): (r: seq<Byte>)
    ensures |r| == |s|
  {
    seq(|s|, i requires 0 <= i < |s| => Fold(s[i]))
  }

  function FoldName(labels: seq<seq<Byte>>): (r: seq<seq<Byte>>)
    ensures |r| == |labels|
  {
    seq(|labels|, i requires 0 <= i < |labels| => FoldLabel(labels[i]))
  }

  /** The same character, or the same letter in the other case. */
  predicate SameLetter(x: Byte, y: Byte) {
    x == y || (65 <= x <= 90 && y == x + 32) || (65 <= y <= 90 && x == y + 32)
  }

  /** Names compare equal exactly if they are the same but for the case of letters. */
  lemma SameButCase(a: seq<seq<Byte>>, b: seq<seq<Byte>>)
    ensures FoldName(a) == FoldName(b) <==>
      && |a| == |b| && (forall i :: 0 <= i < |a| ==> |a[i]| == |b[i]|)
      && forall i, j :: 0 <= i < |a| && 0 <= j < |a[i]| ==> SameLetter(a[i][j], b[i][j])
  {
    hide FoldLabel;
    if |a| == |b| {
      forall i | 0 <= i < |a|
        ensures FoldLabel(a[i]) == FoldLabel(b[i]) <==>
          |a[i]| == |b[i]| && forall j :: 0 <= j < |a[i]| ==> SameLetter(a[i][j], b[i][j])
      {
        LabelsSameButCase(a[i], b[i]);
      }
      if FoldName(a) == FoldName(b) {
        forall i | 0 <= i < |a|
          ensures FoldLabel(a[i]) == FoldLabel(b[i])
        {
          assert FoldName(a)[i] == FoldName(b)[i];
        }
      }
    }
  }

  lemma LabelsSameButCase(a: seq<Byte>, b: seq<Byte>)
    ensures FoldLabel(a) == FoldLabel(b) <==> |a| == |b| && forall j :: 0 <= j < |a| ==> SameLetter(a[j], b[j])
  {
    if |a| == |b| {
      forall j | 0 <= j < |a|
        ensures FoldLabel(a)[j] == FoldLabel(b)[j] <==> SameLetter(a[j], b[j])
      {
        assert FoldLabel(a)[j] == Fold(a[j]) && FoldLabel(b)[j] == Fold(b[j]);
      }
    }
  }

  /** A pointer to an offset: two bits set, and the offset in the other fourteen. */
  lemma PointerLeads(dg: seq<Byte>, pos: nat, offset: nat)
    requires offset < 0x4000 && pos + 1 < |dg| && dg[pos] == 192 + offset / 256 && dg[pos + 1] == offset % 256
    ensures Hop(dg, pos, 1) == Some(offset)
  {
    assert Hop(dg, offset, 0) == Some(offset);
  }

  function Prepend(done: seq<seq<Byte>>, w: Walked): Walked {
    match w
    case Walked(labels, end) => Walked(done + labels, end)
    case Stopped(why) => w
  }

  lemma WalkUnfold(dg: seq<Byte>, c: Cursor)
    ensures var (step, c') := NextLabel(dg, c);
      Walk(dg, c) == if step.Root? then Walked([], c')
                     else if step.Label? then Prepend([Piece(dg, step)], Walk(dg, c'))
                     else Stopped(step)
  {
    hide NextLabel;
    NextLabelGrows(dg, c);
  }

  function Piece(dg: seq<Byte>, step: Step): seq<Byte> {
    if step.Label? && step.start + step.len <= |dg| then dg[step.start..step.start + step.len] else []
  }

  /** The walk, one step at a time. */
  lemma WalkStep(dg: seq<Byte>, c: Cursor, done: seq<seq<Byte>>)
    ensures var (step, c') := NextLabel(dg, c);
      match step
      case Root => Prepend(done, Walk(dg, c)) == Walked(done, c')
      case Label(start, len) =>
        && start + len <= |dg| && len > 0 && c.namelen < c'.namelen <= DNS_MAXDOMAIN
        && Prepend(done, Walk(dg, c)) == Prepend(done + [dg[start..start + len]], Walk(dg, c'))
        && (Walk(dg, c).Walked? ==>
             Walk(dg, c').Walked? && Walk(dg, c).labels == [dg[start..start + len]] + Walk(dg, c').labels)
      case _ => Walk(dg, c) == Stopped(step)
  {
    hide NextLabel, Walk;
    WalkUnfold(dg, c);
    NextLabelGrows(dg, c);
    var (step, c') := NextLabel(dg, c);
    if step.Label? && Walk(dg, c').Walked? {
      var l := [dg[step.start..step.start + step.len]];
      assert done + (l + Walk(dg, c').labels) == done + l + Walk(dg, c').labels;
    } else if step.Root? {
      assert done + [] == done;
    }
  }

  lemma FoldNameAppend(a: seq<seq<Byte>>, b: seq<seq<Byte>>)
    ensures FoldName(a + b) == FoldName(a) + FoldName(b)
  {
  }

  lemma FoldOne(l: seq<Byte>)
    ensures FoldName([l]) == [FoldLabel(l)]
  {
  }

  /** Names that agree so far differ when one ends first or their next labels differ. */
  lemma NamesPart(done: seq<seq<Byte>>, rest: seq<seq<Byte>>, eoDone: seq<seq<Byte>>, eoRest: seq<seq<Byte>>)
    requires FoldName(done) == FoldName(eoDone)
    requires (rest == []) != (eoRest == []) || (rest != [] && eoRest != [] && FoldLabel(rest[0]) != FoldLabel(eoRest[0]))
    ensures FoldName(done + rest) != FoldName(eoDone + eoRest)
  {
    FoldNameAppend(done, rest);
    FoldNameAppend(eoDone, eoRest);
    var k := |done|;
    assert |FoldName(done)| == k == |FoldName(eoDone)|;
    if rest != [] && eoRest != [] {
      assert FoldName(done + rest)[k] == FoldLabel(rest[0]);
      assert FoldName(eoDone + eoRest)[k] == FoldLabel(eoRest[0]);
    }
  }

  /** The owner name of a record: where it ends, and whether it is the expected one. */
  datatype Owner = Owner(end: nat, matched: bool) | NoOwner(why: Step)

  /** The outcome of comparing the name at start with the expected one, if there is one. */
  ghost predicate Compared(dgram: seq<Byte>, start: nat, eo: Option<Located>, owner: Owner) {
    match WalkAt(dgram, start)
    case Stopped(why) => owner == NoOwner(why)
    case Walked(labels, end) =>
      && NameAt(dgram, start, labels)
      && owner.Owner? && Some(owner.end) == LinearEnd(dgram, start)
      && (owner.matched <==> eo.Some? && FoldName(labels) == FoldName(LabelsAt(eo.value)))
  }

  /** The inner loop of adns__findrr_anychk. */
  method CompareLabels(a: seq<Byte>, b: seq<Byte>) returns (equal: bool)
    requires |a| == |b|
    ensures equal <==> FoldLabel(a) == FoldLabel(b)
  {
    for i := 0 to |a|
      invariant forall k :: 0 <= k < i ==> Fold(a[k]) == Fold(b[k])
    {
      if Fold(a[i]) != Fold(b[i]) {
        assert FoldLabel(a)[i] != FoldLabel(b)[i];
        return false;
      }
    }
    equal := true;
  }

  /** One label of the owner against the next of the expected name, which the cursor eo reads. `rest`
      is what remains of the owner, this label first. */
  method MatchNext(dgram: seq<Byte>, step: Step, eo: FindLabelState, ghost rest: Walked, ghost done: seq<seq<Byte>>,
                   ghost eoDone: seq<seq<Byte>>)
    returns (equal: bool, ghost eoDone': seq<seq<Byte>>)
    requires step.Root? || (step.Label? && step.start + step.len <= |dgram|)
    requires rest.Walked? ==> (rest.labels == [] <==> step.Root?)
    requires rest.Walked? && step.Label? ==> rest.labels[0] == Piece(dgram, step)
    requires Walk(eo.dgram, eo.View()).Walked? && FoldName(done) == FoldName(eoDone)
    modifies eo
    ensures equal && step.Label? ==>
      && Walk(eo.dgram, eo.View()).Walked? && FoldName(done + [Piece(dgram, step)]) == FoldName(eoDone')
      && eoDone' + Walk(eo.dgram, eo.View()).labels == eoDone + old(Walk(eo.dgram, eo.View())).labels
    ensures equal && step.Root? ==> old(Walk(eo.dgram, eo.View())).labels == []
    ensures !equal && rest.Walked? ==> FoldName(done + rest.labels) != FoldName(eoDone + old(Walk(eo.dgram, eo.View())).labels)
  {
    hide Walk, NextLabel, FoldName, FoldLabel;
    WalkStep(eo.dgram, eo.View(), eoDone);
    ghost var eoRest := Walk(eo.dgram, eo.View()).labels;
    var eoStep := eo.Next();
    equal := step.Root? && eoStep.Root?;
    eoDone' := eoDone;
    if step.Label? && eoStep.Label? {
      var lab, eoLab := dgram[step.start..step.start + step.len], eo.dgram[eoStep.start..eoStep.start + eoStep.len];
      eoDone' := eoDone + [eoLab];
      if step.len == eoStep.len {
        equal := CompareLabels(lab, eoLab);
      }
      assert eoRest == [eoLab] + Walk(eo.dgram, eo.View()).labels;
      FoldOne(lab);
      FoldOne(eoLab);
      FoldNameAppend(done, [lab]);
      FoldNameAppend(eoDone, [eoLab]);
    }
    if !equal && rest.Walked? {
      NamesPart(done, rest.labels, eoDone, eoRest);
    }
  }

  /** The loop of adns__findrr_anychk over the labels of the record's owner and, until a mismatch,
      those of the expected name, which was walked before, as the code asserts. */
  method CompareOwner(dgram: seq<Byte>, start: nat, eo: Option<Located>) returns (owner: Owner)
    ensures Compared(dgram, start, eo, owner)
  {
    hide Walk, NameAt, Resolve, LinearEnd, NextLabel, TextLength, FoldName, FoldLabel;
    var fls := new FindLabelState(dgram, |dgram|, start);
    ghost var w := Walk(dgram, fls.View());
    if w.Walked? {
      WalkIsName(dgram, fls.View(), w.labels);
    }
    var place: Place := if eo.Some? then eo.value else Place([], 0);
    ghost var eoLabels := if eo.Some? then LabelsAt(eo.value) else [];
    var expected := new FindLabelState(place.dgram, |place.dgram|, place.begin);
    var mismatch := eo.None?;
    ghost var done: seq<seq<Byte>>, eoDone: seq<seq<Byte>> := [], [];
    assert [] + eoLabels == eoLabels && Prepend([], w) == w;
    while true
      invariant w == Prepend(done, Walk(dgram, fls.View()))
      invariant !mismatch ==> Walk(place.dgram, expected.View()).Walked?
      invariant !mismatch ==> eo.Some? && eoLabels == eoDone + Walk(place.dgram, expected.View()).labels
      invariant !mismatch ==> FoldName(done) == FoldName(eoDone)
      invariant mismatch && eo.Some? ==> (w.Walked? ==> FoldName(w.labels) != FoldName(eoLabels))
      decreases DNS_MAXDOMAIN + 1 - fls.namelen
    {
      WalkStep(dgram, fls.View(), done);
      ghost var rest := Walk(dgram, fls.View());
      var step := fls.Next();
      if !step.Label? && !step.Root? {
        return NoOwner(step);
      }
      if !mismatch {
        ghost var before := eoDone;
        var equal: bool;
        equal, eoDone := MatchNext(dgram, step, expected, rest, done, eoDone);
        mismatch := !equal;
        assert step.Root? && equal ==> before + [] == before;
      }
      if step.Root? {
        break;
      }
      done := done + [Piece(dgram, step)];
    }
    owner := Owner(fls.dmend.value, !mismatch);
  }
}
