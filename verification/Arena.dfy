/** The memory of an answer: charged piece by piece while replies are read, then carved out of one
    block. */
module Arena {
  import opened Bytes

  /** MEM_ROUND, for the size of the most demanding type. */
  function Round(sz: nat, align: nat): (r: nat)
    requires align > 0
    ensures sz <= r < sz + align
  {
    RoundBounds(sz, align);
    (sz + align - 1) / align * align
  }

  lemma RoundBounds(sz: nat, align: nat)
    requires align > 0
    ensures sz <= (sz + align - 1) / align * align < sz + align
  {
    var q := (sz + align - 1) / align;
    assert sz + align - 1 == q * align + (sz + align - 1) % align;
  }

  /** It is a multiple. */
  lemma RoundMultiple(sz: nat, align: nat)
    requires align > 0
    ensures exists k: nat :: Round(sz, align) == k * align
  {
    var k: nat := (sz + align - 1) / align;
    assert Round(sz, align) == k * align;
  }

  lemma RoundMonotone(a: nat, b: nat, align: nat)
    requires align > 0 && a <= b
    ensures Round(a, align) <= Round(b, align)
  {
    DivideMonotone(a + align - 1, b + align - 1, align);
    MultiplyMonotone((a + align - 1) / align, (b + align - 1) / align, align);
  }

  lemma MultiplyMonotone(p: int, q: int, n: nat)
    requires p <= q
    ensures p * n <= q * n
  {
    assert (q - p) * n >= 0;
  }

  lemma DivideMonotone(x: nat, y: nat, n: nat)
    requires n > 0 && x <= y
    ensures x / n <= y / n
  {
    var p, q := x / n, y / n;
    Divided(x, n);
    Divided(y, n);
    SmallerFactor(p, q + 1, n);
  }

  // ---------------------------------------------------------------- the table of types

  /** sizeof of the types whose arrays are allocated, and of the most demanding type. */
  datatype Layout = Layout(align: nat, intstr: nat, addr: nat)

  datatype Type = A | NsRaw | Cname | SoaRaw | PtrRaw | Hinfo | MxRaw | Txt | RpRaw | Address | Ns | Ptr | Mx | Soa | Rp

  datatype Parser =
    | PaInaddr
    | PaHostRaw
    | PaDomRaw
    | PaSoa
    | PaHinfo
    | PaMxRaw
    | PaTxt
    | PaRp
    | PaAddr
    | PaHostaddr
    | PaPtr
    | PaMx

  datatype Final = MfFlat | MfStr | MfSoa | MfIntStrPair | MfIntStr | MfManyIStr | MfStrPair | MfHostaddr | MfInthostaddr

  /** Which parser and which mf_ function a type has, and whether its mailboxes are in RFC 822 form. */
  datatype TypeInfo = TypeInfo(parser: Parser, final: Final, mail822: bool)

  /** typeinfos. */
  function Info(t: Type): TypeInfo {
    match t
    case A => TypeInfo(PaInaddr, MfFlat, false)
    case NsRaw => TypeInfo(PaHostRaw, MfStr, false)
    case Cname => TypeInfo(PaDomRaw, MfStr, false)
    case SoaRaw => TypeInfo(PaSoa, MfSoa, false)
    case PtrRaw => TypeInfo(PaHostRaw, MfStr, false)
    case Hinfo => TypeInfo(PaHinfo, MfIntStrPair, false)
    case MxRaw => TypeInfo(PaMxRaw, MfIntStr, false)
    case Txt => TypeInfo(PaTxt, MfManyIStr, false)
    case RpRaw => TypeInfo(PaRp, MfStrPair, false)
    case Address => TypeInfo(PaAddr, MfFlat, false)
    case Ns => TypeInfo(PaHostaddr, MfHostaddr, false)
    case Ptr => TypeInfo(PaPtr, MfStr, false)
    case Mx => TypeInfo(PaMx, MfInthostaddr, false)
    case Soa => TypeInfo(PaSoa, MfSoa, true)
    case Rp => TypeInfo(PaRp, MfStrPair, true)
  }

  /** A record as its union member holds it. The table of a text record and the array of addresses
      are given by their bytes. */
  datatype Record =
    | Flat
    | OneStr(str: seq<Byte>)
    | TwoStrs(first: seq<Byte>, second: seq<Byte>)
    | ManyStrs(table: seq<Byte>, strs: seq<seq<Byte>>)
    | Host(host: seq<Byte>, addrs: Option<seq<Byte>>)

  /** What a parser makes. */
  predicate Makes(p: Parser, r: Record, l: Layout) {
    match p
    case PaInaddr => r.Flat?
    case PaAddr => r.Flat?
    case PaHostRaw => r.OneStr?
    case PaDomRaw => r.OneStr?
    case PaPtr => r.OneStr?
    case PaMxRaw => r.OneStr?
    case PaHinfo => r.TwoStrs?
    case PaSoa => r.TwoStrs?
    case PaRp => r.TwoStrs?
    case PaTxt => r.ManyStrs? && r.strs != [] && |r.table| == l.intstr * (|r.strs| + 1)
    case PaHostaddr => r.Host?
    case PaMx => r.Host?
  }

  // ---------------------------------------------------------------- what the parsers allocate

  /** pap_domain: the buffer holds the terminator already, and one more byte is asked for. */
  function DomainSize(s: seq<Byte>): nat {
    |s| + 1 + 1
  }

  /** pap_mailbox: the root, in RFC 822 form, is a dot without terminator. */
  function MailboxSize(mail822: bool, s: seq<Byte>): nat {
    if mail822 && s == [46] then |s| + 1 else DomainSize(s)
  }

  /** pap_qstring. */
  function StringSize(s: seq<Byte>): nat {
    |s| + 1
  }

  function StringSizes(strs: seq<seq<Byte>>): (r: seq<nat>)
    ensures |r| == |strs|
  {
    seq(|strs|, i requires 0 <= i < |strs| => StringSize(strs[i]))
  }

  /** pap_hostaddr and pap_findaddrs. */
  function HostSizes(host: seq<Byte>, addrs: Option<seq<Byte>>): seq<nat> {
    [DomainSize(host)] + if addrs.Some? then [|addrs.value|] else []
  }

  /** The sizes the parser of a record asks adns__alloc_interim for, in its order. */
  function Allocated(info: TypeInfo, r: Record): seq<nat> {
    match r
    case Flat => []
    case OneStr(s) => [DomainSize(s)]
    case TwoStrs(a, b) =>
      (match info.parser
       case PaHinfo => [StringSize(a), StringSize(b)]
       case PaRp => [MailboxSize(info.mail822, a), DomainSize(b)]
       case _ => [DomainSize(a), MailboxSize(info.mail822, b)])
    case ManyStrs(table, strs) => [|table|] + StringSizes(strs)
    case Host(host, addrs) => HostSizes(host, addrs)
  }

  // ---------------------------------------------------------------- what makefinal copies

  /** strlen. */
  function CLength(s: seq<Byte>): (n: nat)
    ensures n <= |s| && (forall i :: 0 <= i < n ==> s[i] != 0) && (n < |s| ==> s[n] == 0)
  {
    if s == [] || s[0] == 0 then 0 else 1 + CLength(s[1..])
  }

  /** adns__makefinal_str: up to the first zero byte. */
  function FinalStr(s: seq<Byte>): (b: seq<Byte>)
    ensures |b| <= |s| + 1
  {
    s[..CLength(s)] + [0]
  }

  function FinalStrs(strs: seq<seq<Byte>>): (r: seq<seq<Byte>>)
    ensures |r| == |strs|
  {
    seq(|strs|, i requires 0 <= i < |strs| => FinalStr(strs[i]))
  }

  /** The pieces the mf_ function of a record copies, in its order. */
  function Copied(mf: Final, r: Record): seq<seq<Byte>> {
    match mf
    case MfFlat => []
    case MfStr => if r.OneStr? then [FinalStr(r.str)] else []
    case MfIntStr => if r.OneStr? then [FinalStr(r.str)] else []
    case MfSoa => if r.TwoStrs? then [FinalStr(r.first), FinalStr(r.second)] else []
    case MfStrPair => if r.TwoStrs? then [FinalStr(r.first), FinalStr(r.second)] else []
    case MfIntStrPair => if r.TwoStrs? then [FinalStr(r.first), FinalStr(r.second)] else []
    case MfManyIStr => if r.ManyStrs? then [r.table] + FinalStrs(r.strs) else []
    case MfHostaddr => FinalHost(r)
    case MfInthostaddr => FinalHost(r)
  }

  /** mfp_hostaddr. */
  function FinalHost(r: Record): seq<seq<Byte>> {
    if r.Host? then [FinalStr(r.host)] + (if r.addrs.Some? then [r.addrs.value] else []) else []
  }

  /** For every type: makefinal copies as many pieces as the parser allocated, none larger. */
  lemma PieceByPiece(t: Type, r: Record, l: Layout)
    requires Makes(Info(t).parser, r, l)
    ensures var sizes, pieces := Allocated(Info(t), r), Copied(Info(t).final, r);
      |pieces| == |sizes| && forall i :: 0 <= i < |pieces| ==> |pieces[i]| <= sizes[i]
  {
    hide CLength;
    if r.ManyStrs? {
      var sizes, pieces := StringSizes(r.strs), FinalStrs(r.strs);
      assert forall i :: 0 <= i < |pieces| ==> |pieces[i]| <= sizes[i];
    }
  }

  function Total(sizes: seq<nat>): nat {
    if sizes == [] then 0 else sizes[0] + Total(sizes[1..])
  }

  function Lengths(pieces: seq<seq<Byte>>): nat {
    if pieces == [] then 0 else |pieces[0]| + Lengths(pieces[1..])
  }

  predicate Text(s: seq<Byte>) {
    0 !in s
  }

  predicate TextRecord(r: Record) {
    match r
    case Flat => true
    case OneStr(s) => Text(s)
    case TwoStrs(a, b) => Text(a) && Text(b)
    case ManyStrs(_, strs) => forall i :: 0 <= i < |strs| ==> Text(strs[i])
    case Host(host, _) => Text(host)
  }

  /** How much more is charged than copied, before rounding: one byte for every domain name, none for a
      string, and none for a root mailbox in RFC 822 form, which in turn has no terminator of its own. */
  lemma Unused(t: Type, r: Record, l: Layout)
    requires Makes(Info(t).parser, r, l) && TextRecord(r)
    ensures Total(Allocated(Info(t), r)) == Lengths(Copied(Info(t).final, r)) +
      match t
      case A => 0
      case Address => 0
      case Hinfo => 0
      case Txt => 0
      case SoaRaw => 2
      case RpRaw => 2
      case Soa => if r.second == [46] then 1 else 2
      case Rp => if r.first == [46] then 1 else 2
      case _ => 1
  {
    hide FinalStr, Text, Total, Lengths, MailboxSize, HostSizes, FinalHost;
    match r {
      case Flat =>
        NoPieces();
      case OneStr(s) =>
        WholeText(s);
        OnePiece(DomainSize(s), FinalStr(s));
      case TwoStrs(_, _) =>
        UnusedOfTwo(t, r);
      case ManyStrs(table, strs) =>
        UnusedOfMany(table, strs);
      case Host(host, addrs) =>
        UnusedOfHost(host, addrs);
    }
  }

  lemma NoPieces()
    ensures Total([]) == 0 && Lengths([]) == 0
  {
  }

  lemma UnusedOfTwo(t: Type, r: Record)
    requires t in {Hinfo, SoaRaw, Soa, RpRaw, Rp} && r.TwoStrs? && Text(r.first) && Text(r.second)
    ensures Total(Allocated(Info(t), r)) == Lengths(Copied(Info(t).final, r)) +
      match t
      case Hinfo => 0
      case Soa => if r.second == [46] then 1 else 2
      case Rp => if r.first == [46] then 1 else 2
      case _ => 2
  {
    hide FinalStr, Text, Total, Lengths;
    WholeText(r.first);
    WholeText(r.second);
    TwoPieces(Allocated(Info(t), r), Copied(Info(t).final, r));
  }

  lemma UnusedOfMany(table: seq<Byte>, strs: seq<seq<Byte>>)
    requires forall i :: 0 <= i < |strs| ==> Text(strs[i])
    ensures Total([|table|] + StringSizes(strs)) == Lengths([table] + FinalStrs(strs))
  {
    ManyPieces(strs);
    hide StringSizes, FinalStrs;
    assert ([|table|] + StringSizes(strs))[1..] == StringSizes(strs) && ([table] + FinalStrs(strs))[1..] == FinalStrs(strs);
  }

  lemma UnusedOfHost(host: seq<Byte>, addrs: Option<seq<Byte>>)
    requires Text(host)
    ensures Total(HostSizes(host, addrs)) == Lengths(FinalHost(Host(host, addrs))) + 1
  {
    WholeText(host);
    if addrs.Some? {
      TwoPieces(HostSizes(host, addrs), FinalHost(Host(host, addrs)));
    } else {
      OnePiece(DomainSize(host), FinalStr(host));
    }
  }

  lemma OnePiece(size: nat, piece: seq<Byte>)
    ensures Total([size]) == size && Lengths([piece]) == |piece|
  {
    assert [size][1..] == [] && [piece][1..] == [];
  }

  lemma WholeText(s: seq<Byte>)
    requires Text(s)
    ensures FinalStr(s) == s + [0]
  {
    StringSurvives(s);
  }

  lemma TwoPieces(sizes: seq<nat>, pieces: seq<seq<Byte>>)
    requires |sizes| == |pieces| == 2
    ensures Total(sizes) == sizes[0] + sizes[1] && Lengths(pieces) == |pieces[0]| + |pieces[1]|
  {
    assert sizes[1..][1..] == [] && pieces[1..][1..] == [];
    assert Total(sizes[1..]) == sizes[1..][0] + Total([]) && Lengths(pieces[1..]) == |pieces[1..][0]| + Lengths([]);
  }

  lemma {:induction false} ManyPieces(strs: seq<seq<Byte>>)
    requires forall i :: 0 <= i < |strs| ==> Text(strs[i])
    ensures Total(StringSizes(strs)) == Lengths(FinalStrs(strs))
  {
    if strs != [] {
      WholeText(strs[0]);
      ManyPieces(strs[1..]);
      assert StringSizes(strs)[1..] == StringSizes(strs[1..]) && FinalStrs(strs)[1..] == FinalStrs(strs[1..]);
    }
  }

  /** A string keeps all its bytes iff none is zero; a TXT string may hold one. */
  lemma StringSurvives(s: seq<Byte>)
    ensures FinalStr(s) == s + [0] <==> forall i :: 0 <= i < |s| ==> s[i] != 0
  {
    if forall i :: 0 <= i < |s| ==> s[i] != 0 {
      assert s[..|s|] == s;
    } else {
      assert |FinalStr(s)| < |s + [0]|;
    }
  }

  // ---------------------------------------------------------------- sums

  /** The memory that pieces of these sizes take, each rounded. */
  function Sum(sizes: seq<nat>, align: nat): nat
    requires align > 0
  {
    if sizes == [] then 0 else Sum(sizes[..|sizes| - 1], align) + Round(sizes[|sizes| - 1], align)
  }

  function Sizes(pieces: seq<seq<Byte>>): (r: seq<nat>)
    ensures |r| == |pieces| && forall i :: 0 <= i < |r| ==> r[i] == |pieces[i]|
  {
    seq(|pieces|, i requires 0 <= i < |pieces| => |pieces[i]|)
  }

  lemma {:induction false} SumMonotone(a: seq<nat>, b: seq<nat>, align: nat)
    requires align > 0 && |a| == |b| && forall i :: 0 <= i < |a| ==> a[i] <= b[i]
    ensures Sum(a, align) <= Sum(b, align)
    decreases |a|
  {
    hide Round;
    if a != [] {
      SumMonotone(a[..|a| - 1], b[..|b| - 1], align);
      RoundMonotone(a[|a| - 1], b[|b| - 1], align);
    }
  }

  lemma {:induction false} SumAppend(a: seq<nat>, b: seq<nat>, align: nat)
    requires align > 0
    ensures Sum(a + b, align) == Sum(a, align) + Sum(b, align)
    decreases |b|
  {
    hide Round;
    if b == [] {
      assert a + b == a;
    } else {
      var n := |b| - 1;
      assert (a + b)[..|a + b| - 1] == a + b[..n];
      SumAppend(a, b[..n], align);
    }
  }

  lemma {:induction false} SumPrefix(a: seq<nat>, i: nat, align: nat)
    requires align > 0 && i <= |a|
    ensures Sum(a[..i], align) <= Sum(a, align)
    decreases |a|
  {
    hide Round;
    if i < |a| {
      assert a[..i] == a[..|a| - 1][..i];
      SumPrefix(a[..|a| - 1], i, align);
    } else {
      assert a[..i] == a;
    }
  }

  lemma SumStep(a: seq<nat>, i: nat, align: nat)
    requires align > 0 && i < |a|
    ensures Sum(a[..i + 1], align) == Sum(a[..i], align) + Round(a[i], align)
  {
    assert a[..i + 1][..i] == a[..i];
  }

  lemma SumOne(n: nat, align: nat)
    requires align > 0
    ensures Sum([n], align) == Round(n, align) && Sum([], align) == 0
  {
    assert [n][..0] == [];
  }

  lemma SizesAppend(a: seq<seq<Byte>>, b: seq<seq<Byte>>)
    ensures Sizes(a + b) == Sizes(a) + Sizes(b)
  {
  }

  /** The charges of a list of records, record by record. */
  function RecordCharges(info: TypeInfo, rs: seq<Record>, align: nat): nat
    requires align > 0
  {
    if rs == [] then 0 else RecordCharges(info, rs[..|rs| - 1], align) + Sum(Allocated(info, rs[|rs| - 1]), align)
  }

  function AllCopied(mf: Final, rs: seq<Record>): seq<seq<Byte>> {
    if rs == [] then [] else AllCopied(mf, rs[..|rs| - 1]) + Copied(mf, rs[|rs| - 1])
  }

  ghost predicate AllMade(t: Type, rs: seq<Record>, l: Layout) {
    forall i :: 0 <= i < |rs| ==> Makes(Info(t).parser, rs[i], l)
  }

  lemma {:induction false} RecordsFunded(t: Type, rs: seq<Record>, l: Layout)
    requires l.align > 0 && AllMade(t, rs, l)
    ensures Sum(Sizes(AllCopied(Info(t).final, rs)), l.align) <= RecordCharges(Info(t), rs, l.align)
    decreases |rs|
  {
    hide Copied, Allocated, Sum, Info, Makes;
    if rs == [] {
      SumOne(0, l.align);
    } else {
      var n := |rs| - 1;
      RecordsFunded(t, rs[..n], l);
      PieceByPiece(t, rs[n], l);
      var pieces := Copied(Info(t).final, rs[n]);
      SizesAppend(AllCopied(Info(t).final, rs[..n]), pieces);
      SumAppend(Sizes(AllCopied(Info(t).final, rs[..n])), Sizes(pieces), l.align);
      SumMonotone(Sizes(pieces), Allocated(Info(t), rs[n]), l.align);
    }
  }

  /** One record changing changes the sum by the difference. */
  lemma {:induction false} RecordUpdate(info: TypeInfo, rs: seq<Record>, k: nat, r: Record, align: nat)
    requires align > 0 && k < |rs|
    ensures RecordCharges(info, rs[k := r], align) - RecordCharges(info, rs, align)
         == Sum(Allocated(info, r), align) - Sum(Allocated(info, rs[k]), align)
    decreases |rs|
  {
    hide Sum, Allocated;
    var n := |rs| - 1;
    if k == n {
      assert rs[k := r][..n] == rs[..n];
    } else {
      assert rs[k := r][..n] == rs[..n][k := r];
      RecordUpdate(info, rs[..n], k, r, align);
    }
  }

  /** Addresses that a child hands over are charged as if the parser had found them. */
  lemma HostCharges(info: TypeInfo, host: seq<Byte>, addrs: seq<Byte>, align: nat)
    requires align > 0
    ensures Sum(Allocated(info, Host(host, Some(addrs))), align)
         == Sum(Allocated(info, Host(host, None)), align) + Round(|addrs|, align)
  {
    hide Round;
    assert Allocated(info, Host(host, Some(addrs))) == [DomainSize(host)] + [|addrs|];
    assert Allocated(info, Host(host, None)) == [DomainSize(host)];
    SumAppend([DomainSize(host)], [|addrs|], align);
    SumOne(|addrs|, align);
  }

  function TableCharge(rrs: Option<seq<Byte>>, align: nat): nat
    requires align > 0
  {
    if rrs.Some? then Round(|rrs.value|, align) else 0
  }

  function Optional(s: Option<seq<Byte>>): seq<seq<Byte>> {
    if s.Some? then [FinalStr(s.value)] else []
  }

  function OptionalSize(s: Option<seq<Byte>>): seq<nat> {
    if s.Some? then [|s.value| + 1] else []
  }

  // ---------------------------------------------------------------- a query's memory

  class QueryMemory {
    const typ: Type
    const layout: Layout
    /** MEM_ROUND of the size of the answer itself. */
    const header: nat
    var interim: int
    var preserved: int
    /** Where the next final piece goes; zero until the answer is made final. */
    var finalSpace: nat
    var block: array<Byte>

    var cname: Option<seq<Byte>>
    var owner: Option<seq<Byte>>
    /** The table of records, nrrs times rrsz bytes. */
    var rrs: Option<seq<Byte>>
    var records: seq<Record>

    constructor (typ: Type, layout: Layout, header: nat)
      requires layout.align > 0 && header > 0
      ensures Funded() && AnswerPieces() == [] && finalSpace == 0
      ensures this.typ == typ && this.layout == layout && this.header == header
    {
      this.typ, this.layout, this.header := typ, layout, header;
      interim, preserved, finalSpace, block := 0, 0, 0, new Byte[0];
      cname, owner, rrs, records := None, None, None, [];
    }

    /** What outlives adns__reset_preserved. */
    function PreservedPieces(): seq<seq<Byte>>
      reads `cname, `owner
    {
      Optional(cname) + Optional(owner)
    }

    /** The pieces makefinal_query copies, in its order. */
    function AnswerPieces(): seq<seq<Byte>>
      reads `cname, `owner, `rrs, `records
    {
      PreservedPieces() + (if rrs.Some? then [rrs.value] else []) + AllCopied(Info(typ).final, records)
    }

    /** The charges for what adns__reset_preserved gives up. */
    ghost function Passing(): nat
      requires layout.align > 0
      reads `rrs, `records
    {
      TableCharge(rrs, layout.align) + RecordCharges(Info(typ), records, layout.align)
    }

    /** What was charged for the preserved strings. */
    ghost function PreservedCharge(): nat
      requires layout.align > 0
      reads `cname, `owner
    {
      Sum(OptionalSize(cname), layout.align) + Sum(OptionalSize(owner), layout.align)
    }

    /** The charges cover what the answer holds, and its records are of its type. */
    ghost predicate Funded()
      reads `interim, `preserved, `cname, `owner, `rrs, `records
    {
      && layout.align > 0 && header > 0 && AllMade(typ, records, layout)
      && PreservedCharge() <= preserved
      && preserved + Passing() <= interim
    }

    lemma FundsAnswer()
      requires Funded()
      ensures Sum(Sizes(AnswerPieces()), layout.align) <= interim
    {
      hide Round, Sum, AllCopied, RecordCharges, Sizes, AllMade;
      var align := layout.align;
      var table: seq<seq<Byte>> := if rrs.Some? then [rrs.value] else [];
      SizesAppend(PreservedPieces() + table, AllCopied(Info(typ).final, records));
      SizesAppend(PreservedPieces(), table);
      SizesAppend(Optional(cname), Optional(owner));
      SumAppend(Sizes(PreservedPieces() + table), Sizes(AllCopied(Info(typ).final, records)), align);
      SumAppend(Sizes(PreservedPieces()), Sizes(table), align);
      SumAppend(Sizes(Optional(cname)), Sizes(Optional(owner)), align);
      OptionalFunded(cname, align);
      OptionalFunded(owner, align);
      TableFunded(rrs, align);
      RecordsFunded(typ, records, layout);
    }

    /** adns__alloc_interim. */
    method AllocInterim(sz: nat)
      requires layout.align > 0 && finalSpace == 0
      modifies `interim
      ensures interim == old(interim) + Round(sz, layout.align)
    {
      interim := interim + Round(sz, layout.align);
    }

    /** adns__alloc_preserved. */
    method AllocPreserved(sz: nat)
      requires layout.align > 0 && finalSpace == 0
      modifies `interim, `preserved
      ensures interim == old(interim) + Round(sz, layout.align) && preserved == old(preserved) + Round(sz, layout.align)
    {
      AllocInterim(sz);
      preserved := preserved + Round(sz, layout.align);
    }

    /** The alias found in a reply. */
    method SaveCname(s: seq<Byte>)
      requires Funded() && finalSpace == 0 && cname.None?
      modifies `interim, `preserved, `cname
      ensures Funded() && cname == Some(s)
    {
      hide Round, Sum, RecordCharges;
      AllocPreserved(|s| + 1);
      cname := Some(s);
      SumOne(|s| + 1, layout.align);
    }

    /** save_owner. */
    method SaveOwner(s: seq<Byte>)
      requires Funded() && finalSpace == 0 && owner.None?
      modifies `interim, `preserved, `owner
      ensures Funded() && owner == Some(s)
    {
      hide Round, Sum, RecordCharges;
      AllocPreserved(|s| + 1);
      owner := Some(s);
      SumOne(|s| + 1, layout.align);
    }

    /** The parser of one record, as far as memory goes. */
    method ReadRecord(r: Record)
      requires layout.align > 0 && finalSpace == 0
      modifies `interim
      ensures interim == old(interim) + Sum(Allocated(Info(typ), r), layout.align)
    {
      hide Round, Allocated, Sum;
      var sizes := Allocated(Info(typ), r);
      SumOne(0, layout.align);
      assert sizes[..0] == [];
      for i := 0 to |sizes|
        invariant interim == old(interim) + Sum(sizes[..i], layout.align)
      {
        AllocInterim(sizes[i]);
        SumStep(sizes, i, layout.align);
      }
      assert sizes[..|sizes|] == sizes;
    }

    /** The second pass over a reply: the table of records, then each record. */
    method ReadAnswer(table: seq<Byte>, rs: seq<Record>)
      requires Funded() && finalSpace == 0 && rrs.None? && records == [] && AllMade(typ, rs, layout)
      modifies `interim, `rrs, `records
      ensures Funded() && rrs == Some(table) && records == rs
    {
      hide Round, Sum, Allocated, Info, Makes, PreservedCharge;
      AllocInterim(|table|);
      rrs := Some(table);
      for i := 0 to |rs|
        invariant Funded() && rrs == Some(table) && records == rs[..i]
      {
        ReadRecord(rs[i]);
        records := records + [rs[i]];
        assert rs[..i + 1] == records && records[..i] == rs[..i];
      }
      assert rs[..|rs|] == rs;
    }

    /** adns__reset_preserved. */
    method Reset()
      requires Funded() && finalSpace == 0
      modifies `interim, `rrs, `records
      ensures Funded() && rrs.None? && records == [] && interim == preserved
    {
      hide PreservedCharge;
      rrs, records := None, [];
      interim := preserved;
    }

    /** icb_hostaddr: the child's addresses become those of the parent's k-th record, and the charge
        for them goes along. */
    method TakeAddresses(child: QueryMemory, k: nat)
      requires this != child && Funded() && child.Funded() && finalSpace == child.finalSpace == 0 && layout == child.layout
      requires k < |records| && records[k].Host? && records[k].addrs.None?
      modifies `interim, `records, child`interim, child`rrs
      ensures Funded() && child.Funded() && interim + child.interim == old(interim + child.interim)
      ensures records == old(records)[k := old(records)[k].(addrs := old(child.rrs))] && child.rrs.None?
    {
      hide Round, Sum, Allocated, PreservedCharge, RecordCharges;
      var addrs := child.rrs;
      child.rrs := None;
      if addrs.Some? {
        var sz := Round(|addrs.value|, layout.align);
        HostCharges(Info(typ), records[k].host, addrs.value, layout.align);
        child.interim := child.interim - sz;
        interim := interim + sz;
      }
      RecordUpdate(Info(typ), records, k, records[k].(addrs := addrs), layout.align);
      assert records[k].(addrs := None) == records[k];
      records := records[k := records[k].(addrs := addrs)];
    }

    /** adns__alloc_final, with its assertion that the charges suffice as its precondition. */
    method AllocFinal(sz: nat) returns (off: nat)
      requires layout.align > 0 && finalSpace > 0 && Round(sz, layout.align) <= interim
      modifies `interim, `finalSpace
      ensures off == old(finalSpace) && finalSpace == off + Round(sz, layout.align) && interim == old(interim) - Round(sz, layout.align)
    {
      off := finalSpace;
      interim := interim - Round(sz, layout.align);
      finalSpace := off + Round(sz, layout.align);
    }

    /** adns__makefinal_str and adns__makefinal_block. */
    method MakeFinalPiece(bytes: seq<Byte>) returns (off: nat)
      requires layout.align > 0 && finalSpace > 0 && Round(|bytes|, layout.align) <= interim && finalSpace + interim <= block.Length
      modifies `interim, `finalSpace, block
      ensures off == old(finalSpace) && finalSpace == off + Round(|bytes|, layout.align)
      ensures interim == old(interim) - Round(|bytes|, layout.align)
      ensures block[..off] == old(block[..off]) && block[off..off + |bytes|] == bytes
    {
      off := AllocFinal(|bytes|);
      forall i | 0 <= i < |bytes| {
        block[off + i] := bytes[i];
      }
    }

    /** makefinal_query: every piece of the answer gets its place in one block. */
    method MakeFinal() returns (offs: seq<nat>)
      requires Funded() && finalSpace == 0
      modifies `interim, `finalSpace, `block
      ensures fresh(block) && block.Length >= header && interim >= 0
      ensures Placed(block[..], header, AnswerPieces(), offs)
    {
      hide Round, Sum, AllCopied, RecordCharges, Optional, Sizes;
      FundsAnswer();
      var align := layout.align;
      var ps := AnswerPieces();
      ghost var sizes := Sizes(ps);
      block := new Byte[header + interim];
      finalSpace, offs := header, [];
      ghost var funds := interim;
      assert sizes[..0] == [] && ps[..0] == [];
      SumOne(0, align);
      for i := 0 to |ps|
        invariant fresh(block) && block.Length == header + funds && 0 <= interim && finalSpace + interim == block.Length
        invariant finalSpace == header + Sum(sizes[..i], align) && interim == funds - Sum(sizes[..i], align)
        invariant Placed(block[..finalSpace], header, ps[..i], offs)
      {
        SumPrefix(sizes, i + 1, align);
        SumStep(sizes, i, align);
        ghost var before := block[..finalSpace];
        var off := MakeFinalPiece(ps[i]);
        PlacedMore(before, block[..finalSpace], header, ps, i, offs, off);
        offs := offs + [off];
      }
      assert ps[..|ps|] == ps;
      PlacedWithin(block[..finalSpace], block[..], header, ps, offs);
    }
  }

  lemma OptionalFunded(s: Option<seq<Byte>>, align: nat)
    requires align > 0
    ensures Sum(Sizes(Optional(s)), align) <= Sum(OptionalSize(s), align)
  {
    hide Sum, FinalStr;
    SumMonotone(Sizes(Optional(s)), OptionalSize(s), align);
  }

  lemma TableFunded(rrs: Option<seq<Byte>>, align: nat)
    requires align > 0
    ensures Sum(Sizes(if rrs.Some? then [rrs.value] else []), align) == TableCharge(rrs, align)
  {
    hide Round, Sum;
    if rrs.Some? {
      SumOne(|rrs.value|, align);
      assert Sizes([rrs.value]) == [|rrs.value|];
    } else {
      SumOne(0, align);
    }
  }

  /** Each piece lies in the block, after the answer itself, whole, and apart from the others. */
  ghost predicate Placed(block: seq<Byte>, header: nat, ps: seq<seq<Byte>>, offs: seq<nat>) {
    && |offs| == |ps|
    && (forall i :: 0 <= i < |ps| ==> header <= offs[i] && At(block, offs[i], ps[i]))
    && (forall i, j :: 0 <= i < j < |ps| ==> offs[i] + |ps[i]| <= offs[j])
  }

  lemma PlacedMore(before: seq<Byte>, after: seq<Byte>, header: nat, ps: seq<seq<Byte>>, i: nat, offs: seq<nat>, off: nat)
    requires i < |ps| && Placed(before, header, ps[..i], offs) && off == |before| && header <= off
    requires before <= after && At(after, off, ps[i])
    ensures Placed(after, header, ps[..i + 1], offs + [off])
  {
    forall k | 0 <= k < i
      ensures At(after, offs[k], ps[k]) && offs[k] + |ps[k]| <= off
    {
      assert ps[..i][k] == ps[k];
      assert At(before, offs[k], ps[k]);
      assert after[..off] == before;
    }
  }

  lemma PlacedWithin(part: seq<Byte>, whole: seq<Byte>, header: nat, ps: seq<seq<Byte>>, offs: seq<nat>)
    requires Placed(part, header, ps, offs) && part <= whole
    ensures Placed(whole, header, ps, offs)
  {
    assert whole[..|part|] == part;
  }
}
