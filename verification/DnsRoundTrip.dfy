/** What the reply parser makes of a response that the formatter built. */
module DnsRoundTrip {
  import opened Common
  import opened DnsName
  import opened DnsMessage

  // ------------------------------------------------------------ numbers

  lemma U16At(p: seq<byte>, j: nat, x: u16)
    requires j + 2 <= |p| && p[j..j + 2] == Be16(x)
    ensures U16(p, j) == x
  {
    assert p[j] == p[j..j + 2][0] && p[j + 1] == p[j..j + 2][1];
  }

  lemma U32At(p: seq<byte>, j: nat, x: u32)
    requires j + 4 <= |p| && p[j..j + 4] == Be32(x)
    ensures U32(p, j) == x
  {
    assert p[j..j + 2] == p[j..j + 4][..2] == Be16(x / 0x10000);
    assert p[j + 2..j + 4] == p[j..j + 4][2..] == Be16(x % 0x10000);
    U16At(p, j, x / 0x10000);
    U16At(p, j + 2, x % 0x10000);
  }

  lemma LowOctets(x: nat)
    ensures x / 256 % 256 * 256 + x % 256 == x % 0x10000
  {
    var q, r := x / 0x10000, x % 0x10000;
    assert x / 256 == 256 * q + r / 256;
    assert x / 256 % 256 == r / 256;
    assert x % 256 == r % 256;
  }

  lemma NumberReads(p: seq<byte>, h: seq<byte>, j: nat, x: nat)
    requires h <= p && j + 2 <= |h| && h[j..j + 2] == Be16(x)
    ensures U16(p, j) == x % 0x10000
  {
    LowOctets(x);
    var b := Be16(x);
    assert h[j] == h[j..j + 2][0] && h[j + 1] == h[j..j + 2][1];
    assert p[j] == b[0] && p[j + 1] == b[1];
    assert b[0] as int == x / 256 % 256 && b[1] as int == x % 256;
    hide Be16;
  }

  lemma SliceOfSlice(p: seq<byte>, j: nat, k: nat, a: nat, b: nat)
    requires j <= k <= |p| && a <= b <= k - j
    ensures p[j + a..j + b] == p[j..k][a..b]
  {
    var s, t := p[j + a..j + b], p[j..k][a..b];
    assert |s| == |t| && forall i :: 0 <= i < |s| ==> s[i] == p[j + a + i] == t[i];
  }

  // ------------------------------------------------------------ one record

  /** The data of a record, as it stands in the packet. */
  ghost predicate DataAt(p: seq<byte>, f: Front, data: RData) {
    match data
    case RawData(octets) => f.len == |octets| && f.data + f.len <= |p| && p[f.data..f.data + f.len] == octets
    case NameData(name) =>
      Plain(name) ==> forall outLen: nat :: |name| < outLen ==>
        Decoded(p, f.data, outLen) == Some((name, f.data + f.len))
  }

  predicate NulFree(item: Item) {
    NoNul(item.name) && (item.data.NameData? ==> NoNul(item.data.name))
  }

  lemma EncodedNameReads(msg: seq<byte>, cap: nat, name: Name, table: Table, limit: nat, p: seq<byte>)
    requires NoNul(name) && TableOk(msg, table) && cap <= 0x4000
    requires var e := Encode(|msg|, cap, name, table, limit); e.Encoded? && msg + e.bytes <= p
    ensures var e := Encode(|msg|, cap, name, table, limit);
            && TableOk(msg + e.bytes, e.table)
            && (Plain(name) ==> forall outLen: nat :: |name| < outLen ==>
                  Decoded(p, |msg|, outLen) == Some((name, |msg + e.bytes|)))
  {
    hide Encode, Decoded, TableOk, Plain;
    var e := Encode(|msg|, cap, name, table, limit);
    EncodeReads(msg, cap, name, table, limit);
    var later := p[|msg + e.bytes|..];
    assert p == msg + e.bytes + later;
    if Plain(name) {
      forall outLen: nat | |name| < outLen
        ensures Decoded(p, |msg|, outLen) == Some((name, |msg + e.bytes|))
      {
        AppendedDecodes(msg, name, e.bytes, later, outLen);
      }
    }
  }

  lemma DataReads(msg: seq<byte>, table: Table, data: RData, p: seq<byte>, f: Front)
    requires data.NameData? ==> NoNul(data.name)
    requires TableOk(msg, table) && |p| < 0x10000
    requires var d := FormatData(msg, table, data);
             && d.Draft? && d.msg <= p
             && f.data == |msg| + 2 && f.len == |d.msg| - f.data
    ensures var d := FormatData(msg, table, data);
            msg <= d.msg && TableOk(d.msg, d.table) && U16(p, |msg|) == f.len && DataAt(p, f, data)
  {
    hide Encode, TableOk, NoNul, Plain, Decoded, Be16, U16;
    var d := FormatData(msg, table, data);
    match data {
      case RawData(octets) =>
        var q := msg + Be16(|octets|);
        ConcatAssoc(msg, Be16(|octets|), octets);
        TableOkExtend(msg, Be16(|octets|) + octets, table);
        assert p[f.data..|d.msg|] == octets;
        assert p[|msg|..|msg| + 2] == Be16(|octets|);
        U16At(p, |msg|, |octets|);
      case NameData(name) =>
        var e := Encode(|msg| + 2, BUF_LEN, name, table, MAX_LABELS);
        var q := msg + Be16(|e.bytes|);
        assert |q| == |msg| + 2;
        TableOkExtend(msg, Be16(|e.bytes|), table);
        EncodedNameReads(q, BUF_LEN, name, table, MAX_LABELS, p);
        assert p[|msg|..|msg| + 2] == Be16(|e.bytes|);
        U16At(p, |msg|, |e.bytes|);
    }
  }

  lemma FixedReads(p: seq<byte>, j: nat, item: Item)
    requires j + 8 <= |p| && p[j..j + 8] == Fixed(item)
    ensures U16(p, j) == item.rtype && U16(p, j + 2) == item.rclass && U32(p, j + 4) == item.ttl
  {
    hide Be16, Be32, U16, U32;
    var a, b, c := Be16(item.rtype), Be16(item.rclass), Be32(item.ttl);
    var q := p[j..j + 8];
    assert q == a + b + c;
    assert (a + b)[..2] == a && (a + b)[2..] == b;
    assert q[..4] == a + b && q[4..] == c;
    assert q[0..2] == a && q[2..4] == b && q[4..8] == c;
    SliceOfSlice(p, j, j + 8, 0, 2);
    SliceOfSlice(p, j, j + 8, 2, 4);
    SliceOfSlice(p, j, j + 8, 4, 8);
    U16At(p, j, item.rtype);
    U16At(p, j + 2, item.rclass);
    U32At(p, j + 4, item.ttl);
  }

  /** The front of the record formatted behind `d`, in a packet that starts with the result. */
  ghost predicate RecordAt(p: seq<byte>, start: nat, end: nat, item: Item) {
    var r := ReadFront(p, start);
    && r.Some?
    && var f := r.value;
       && f.rtype == item.rtype && f.rclass == item.rclass && f.ttl == item.ttl
       && f.data + f.len == end && DataAt(p, f, item.data)
  }

  lemma ItemReads(d: Draft, item: Item, p: seq<byte>)
    requires d.Draft? && TableOk(d.msg, d.table) && NulFree(item) && |p| < 0x10000
    requires FormatItem(d, item).Draft? && FormatItem(d, item).msg <= p
    ensures var d' := FormatItem(d, item);
            && d.msg <= d'.msg && |d.msg| + 10 <= |d'.msg| && TableOk(d'.msg, d'.table)
            && (Plain(item.name) ==> RecordAt(p, |d.msg|, |d'.msg|, item))
  {
    hide Encode, TableOk, NoNul, Plain, Decoded, U16, U32, FormatData, DataAt, Fixed;
    var e := Encode(|d.msg|, BUF_LEN, item.name, d.table, MAX_LABELS);
    var named := d.msg + e.bytes;
    var fixed := named + Fixed(item);
    var d' := FormatData(fixed, e.table, item.data);
    FormatDataGrows(fixed, e.table, item.data);
    EncodedNameReads(d.msg, BUF_LEN, item.name, d.table, MAX_LABELS, p);
    TableOkExtend(named, Fixed(item), e.table);
    var f := Front(item.rtype, item.rclass, item.ttl, |d'.msg| - |fixed| - 2, |fixed| + 2);
    DataReads(fixed, e.table, item.data, p, f);
    if Plain(item.name) {
      EncodeFits(|d.msg|, BUF_LEN, item.name, d.table, MAX_LABELS);
      assert p[|named|..|named| + 8] == Fixed(item);
      FixedReads(p, |named|, item);
    }
  }

  lemma FormatDataGrows(msg: seq<byte>, table: Table, data: RData)
    requires FormatData(msg, table, data).Draft?
    ensures msg <= FormatData(msg, table, data).msg && |msg| + 2 <= |FormatData(msg, table, data).msg|
  {
    hide Encode, Be16;
  }

  // ------------------------------------------------------------ the answer section

  predicate Matches(item: Item, rtype: int) {
    item.rtype == rtype && item.rclass == CLASS_INET
  }

  /** What the parser may assume of the answers: proper names, whole addresses in the records it reads
      them from, and a readable target in the alias it was asked to report. */
  predicate Proper(item: Item, req: Request, hostNameMax: nat) {
    && NulFree(item) && Plain(item.name)
    && (Matches(item, req.rtype) ==> item.data.RawData? && |item.data.octets| % Width(req.rtype) == 0)
    && (item.rtype == TYPE_CNAME && req.cnameWanted ==>
          item.data.NameData? && Plain(item.data.name) && |item.data.name| < hostNameMax)
  }

  /** The records that are read, up to the one that fills the reply, are proper; `taken` octets are there already. */
  predicate ReadProper(items: seq<Item>, taken: nat, req: Request, hostNameMax: nat)
    decreases |items|
  {
    items == [] || taken >= AddrRoom(req.rtype) ||
    (Proper(items[0], req, hostNameMax) &&
     var more := if Matches(items[0], req.rtype) && items[0].data.RawData? then |items[0].data.octets| else 0;
     ReadProper(items[1..], taken + more, req, hostNameMax))
  }

  /** Add the octets of a matching record, as far as there is room. */
  function Gather(rep: Reply, item: Item, room: nat): (r: Reply)
    requires item.data.RawData? && |rep.addrs| <= room
    ensures |r.addrs| <= room
  {
    var n := Min(room - |rep.addrs|, |item.data.octets|);
    rep.(addrs := rep.addrs + item.data.octets[..n], ttl := Min(rep.ttl, item.ttl), haveAnswer := true)
  }

  /** What reading the records, rather than their octets, gives. */
  function Collect(items: seq<Item>, rep: Reply, req: Request, hostNameMax: nat): (r: (Reply, bool))
    requires |rep.addrs| < AddrRoom(req.rtype) && ReadProper(items, |rep.addrs|, req, hostNameMax)
    decreases |items|
  {
    if items == [] then (rep, false)
    else
      var item := items[0];
      if Matches(item, req.rtype) then
        var rep' := Gather(rep, item, AddrRoom(req.rtype));
        if |rep'.addrs| == AddrRoom(req.rtype) then (rep', true) else Collect(items[1..], rep', req, hostNameMax)
      else if item.rtype == TYPE_CNAME && req.cnameWanted && rep.cname.None? then
        Collect(items[1..], rep.(cname := Some(item.data.name)), req, hostNameMax)
      else Collect(items[1..], rep, req, hostNameMax)
  }

  function AsStep(r: (Reply, bool), end: nat): Step {
    if r.1 then Stop(r.0) else Next(r.0, end)
  }

  lemma AddressesRead(p: seq<byte>, f: Front, rep: Reply, item: Item)
    requires |rep.addrs| <= AddrRoom(f.rtype)
    requires item.data.RawData? && |item.data.octets| % Width(f.rtype) == 0 && DataAt(p, f, item.data)
             && f.ttl == item.ttl
    ensures var rep' := Gather(rep, item, AddrRoom(f.rtype));
            TakeAddresses(p, f, rep) == if |rep'.addrs| == AddrRoom(f.rtype) then Stop(rep')
              else Next(rep', f.data + f.len)
  {
    hide Width;
    var n := Min(AddrRoom(f.rtype) - |rep.addrs|, f.len);
    assert p[f.data..f.data + n] == item.data.octets[..n];
  }

  lemma {:induction false} AnswersRead(d: Draft, items: seq<Item>, p: seq<byte>, rep: Reply, req: Request,
                                       hostNameMax: nat)
    requires d.Draft? && TableOk(d.msg, d.table) && |p| < 0x10000
    requires req.rtype == TYPE_A || req.rtype == TYPE_AAAA
    requires |rep.addrs| < AddrRoom(req.rtype) && ReadProper(items, |rep.addrs|, req, hostNameMax)
    requires forall i :: 0 <= i < |items| ==> NulFree(items[i])
    requires FormatItems(d, items).Draft? && FormatItems(d, items).msg <= p
    ensures ReadAnswers(p, |d.msg|, |items|, rep, req, hostNameMax)
         == AsStep(Collect(items, rep, req, hostNameMax), |FormatItems(d, items).msg|)
    decreases |items|
  {
    hide TableOk, FormatItem, ReadFront, NoNul, Plain, Decoded, DataAt, TakeAddresses;
    if items != [] {
      var item, rest := items[0], items[1..];
      var d' := FormatItem(d, item);
      FormatItemsPrefix(d', rest);
      ItemReads(d, item, p);
      var f := ReadFront(p, |d.msg|).value;
      var step := ReadAnswer(p, f, rep, req, hostNameMax);
      if Matches(item, req.rtype) {
        AddressesRead(p, f, rep, item);
      } else if item.rtype == TYPE_CNAME && req.cnameWanted && rep.cname.None? {
        CnameRead(p, f, item.data, hostNameMax);
      }
      match step {
        case Next(rep', j') => AnswersRead(d', rest, p, rep', req, hostNameMax);
        case _ =>
      }
    }
  }

  /** A section leaves a true table, and takes at least one octet a record. */
  lemma {:induction false} SectionOk(d: Draft, items: seq<Item>)
    requires d.Draft? && TableOk(d.msg, d.table)
    requires forall i :: 0 <= i < |items| ==> NulFree(items[i])
    requires FormatItems(d, items).Draft? && |FormatItems(d, items).msg| < 0x10000
    ensures TableOk(FormatItems(d, items).msg, FormatItems(d, items).table)
    ensures |items| <= |FormatItems(d, items).msg| - |d.msg|
    decreases |items|
  {
    hide TableOk, FormatItem, NulFree, Plain, RecordAt;
    if items != [] {
      var d' := FormatItem(d, items[0]);
      FormatItemsPrefix(d', items[1..]);
      ItemReads(d, items[0], d'.msg);
      SectionOk(d', items[1..]);
    }
  }

  lemma CnameRead(p: seq<byte>, f: Front, data: RData, hostNameMax: nat)
    requires DataAt(p, f, data) && data.NameData? && Plain(data.name) && |data.name| < hostNameMax
    ensures Decoded(p, f.data, hostNameMax) == Some((data.name, f.data + f.len))
  {
  }

  lemma {:induction false} FormatItemsPrefix(d: Draft, items: seq<Item>)
    requires FormatItems(d, items).Draft?
    ensures d.Draft? && d.msg <= FormatItems(d, items).msg
    decreases |items|
  {
    if items != [] {
      FormatItemsPrefix(FormatItem(d, items[0]), items[1..]);
      FormatItemGrows(d, items[0]);
    }
  }

  lemma FormatItemGrows(d: Draft, item: Item)
    requires d.Draft? && FormatItem(d, item).Draft?
    ensures d.msg <= FormatItem(d, item).msg
  {
    hide Encode, Fixed, FormatData;
    var e := Encode(|d.msg|, BUF_LEN, item.name, d.table, MAX_LABELS);
    FormatDataGrows(d.msg + e.bytes + Fixed(item), e.table, item.data);
  }

  // ------------------------------------------------------------ the question and the authority section

  /** One question, asked for by a query for the same name. */
  lemma QuestionRead(header: seq<byte>, q: Question, p: seq<byte>, req: Request, exact: bool, name: Name,
                     transId: u16, qtype: u16)
    requires |header| == 12 && NoNul(q.name) && Plain(q.name) && NoNul(name) && Plain(name)
    requires FormatQuestions(Draft(header, []), [q]).Draft? && FormatQuestions(Draft(header, []), [q]).msg <= p
    requires BuildRequest(name, transId, qtype) == Some(req.packet)
    requires SameName(q.name, name, exact)
    ensures var d := FormatQuestions(Draft(header, []), [q]);
            && TableOk(d.msg, d.table) && ReadQuestions(p, 12, 1, req, exact, false) == Some(|d.msg|)
            && |d.msg| >= 16 && U16(p, |d.msg| - 4) == q.qtype && U16(p, |d.msg| - 2) == q.qclass
  {
    hide Encode, TableOk, NoNul, Plain, Decoded, SameName;
    var e := Encode(12, BUF_LEN, q.name, [], MAX_LABELS);
    var d := FormatQuestions(Draft(header, []), [q]);
    assert [q][1..] == [];
    assert d == Draft(header + e.bytes + (Be16(q.qtype) + Be16(q.qclass)), e.table);
    NoEntries(header);
    EncodedNameReads(header, BUF_LEN, q.name, [], MAX_LABELS, p);
    EncodeFits(12, BUF_LEN, q.name, [], MAX_LABELS);
    TableOkExtend(header + e.bytes, Be16(q.qtype) + Be16(q.qclass), e.table);
    QueryRead(name, req.packet, transId, qtype);
    TypeReads(header + e.bytes, q.qtype, q.qclass, p);
  }

  /** The type and the class behind a name. */
  lemma TypeReads(msg: seq<byte>, qtype: u16, qclass: u16, p: seq<byte>)
    requires msg + (Be16(qtype) + Be16(qclass)) <= p
    ensures U16(p, |msg|) == qtype && U16(p, |msg| + 2) == qclass
  {
    var h := msg + (Be16(qtype) + Be16(qclass));
    assert h[|msg|..|msg| + 2] == Be16(qtype) && h[|msg| + 2..|msg| + 4] == Be16(qclass);
    NumberReads(p, h, |msg|, qtype);
    NumberReads(p, h, |msg| + 2, qclass);
  }

  lemma NoEntries(msg: seq<byte>)
    ensures TableOk(msg, [])
  {
  }

  /** A query carries its id, asks for recursion, and has one question, with its name at offset 12 and its type and
      class at the end. */
  lemma QueryRead(name: Name, packet: seq<byte>, transId: u16, qtype: u16)
    requires NoNul(name) && Plain(name) && BuildRequest(name, transId, qtype) == Some(packet)
    ensures Decoded(packet, 12, 256) == Some((name, |packet| - 4))
    ensures U16(packet, 0) == transId && U16(packet, 2) == 0x0100 && U16(packet, 4) == 1
    ensures U16(packet, 6) == 0 && U16(packet, 8) == 0 && U16(packet, 10) == 0
    ensures U16(packet, |packet| - 4) == qtype && U16(packet, |packet| - 2) == CLASS_INET
  {
    hide Encode, TableOk, NoNul, Plain, Decoded, Be16, U16;
    var a, b, c, z := Be16(transId), Be16(0x0100), Be16(1), Be16(0);
    var head, cap := a + b + c + z + z + z, 96 + |name| + 2 + 4;
    var e := Encode(12, cap, name, [], 0);
    assert packet == head + e.bytes + (Be16(qtype) + Be16(CLASS_INET));
    NoEntries(head);
    EncodeFits(12, cap, name, [], 0);
    EncodedNameReads(head, cap, name, [], 0, packet);
    TypeReads(head + e.bytes, qtype, CLASS_INET, packet);
    assert head[0..2] == a && head[2..4] == b && head[4..6] == c && head[6..8] == z && head[8..10] == z
           && head[10..12] == z;
    assert head <= packet;
    NumberReads(packet, head, 0, transId);
    NumberReads(packet, head, 2, 0x0100);
    NumberReads(packet, head, 4, 1);
    NumberReads(packet, head, 6, 0);
    NumberReads(packet, head, 8, 0);
    NumberReads(packet, head, 10, 0);
  }

  /** A name without pointers reads the same wherever it stands. */
  lemma {:induction false} ReadsShift(p: seq<byte>, base: nat, s: seq<byte>, j: nat, labels: seq<Label>)
    requires base + |s| <= |p| && p[base..base + |s|] == s && Reads(s, j, labels, 0)
    ensures Reads(p, base + j, labels, 0) && j < NameEnd(s, j) <= |s| && NameEnd(p, base + j) == base + NameEnd(s, j)
    decreases |labels|
  {
    assert p[base + j] == p[base..base + |s|][j];
    if s[j] != 0 {
      var k := j + 1 + s[j] as int;
      ReadsShift(p, base, s, k, labels[1..]);
      SliceOfSlice(p, base, base + |s|, j + 1, k);
    }
  }

  /** The data of a start-of-authority record that stands at `at`: two names, perhaps with pointers into the message,
      and five numbers. */
  ghost predicate SoaAt(p: seq<byte>, at: int, len: nat) {
    && (exists mname, hops :: Accepts(p, at, 256, mname, hops))
    && (exists rname, hops :: Accepts(p, NameEnd(p, at), 256, rname, hops))
    && NameEnd(p, NameEnd(p, at)) + 20 == at + len
  }

  /** The same, for names without pointers, wherever it stands. */
  ghost predicate SoaNames(octets: seq<byte>, mname: seq<Label>, rname: seq<Label>) {
    && Reads(octets, 0, mname, 0) && |Join(mname)| < 256
    && var e := NameEnd(octets, 0);
       Reads(octets, e, rname, 0) && |Join(rname)| < 256 && |octets| == NameEnd(octets, e) + 20
  }

  ghost predicate SoaOk(item: Item) {
    item.data.RawData? && exists mname, rname :: SoaNames(item.data.octets, mname, rname)
  }

  /** The last of the numbers, MINIMUM. */
  function SoaMinimum(item: Item): u32 {
    if item.data.RawData? && |item.data.octets| >= 4 then U32(item.data.octets, |item.data.octets| - 4) else 0
  }

  lemma U32Shift(p: seq<byte>, base: nat, s: seq<byte>, j: nat)
    requires base + |s| <= |p| && p[base..base + |s|] == s && j + 4 <= |s|
    ensures U32(p, base + j) == U32(s, j)
  {
    SliceOfSlice(p, base, base + |s|, j, j + 4);
    assert p[base + j..base + j + 4] == s[j..j + 4];
    assert p[base + j] == s[j] && p[base + j + 1] == s[j + 1] && p[base + j + 2] == s[j + 2]
           && p[base + j + 3] == s[j + 3];
  }

  lemma SoaStands(p: seq<byte>, at: nat, item: Item)
    requires SoaOk(item) && at + |item.data.octets| <= |p| && p[at..at + |item.data.octets|] == item.data.octets
    ensures SoaAt(p, at, |item.data.octets|)
  {
    hide Reads, NameEnd, Join;
    var s := item.data.octets;
    var mname, rname :| SoaNames(s, mname, rname);
    ReadsShift(p, at, s, 0, mname);
    ReadsShift(p, at, s, NameEnd(s, 0), rname);
    assert Accepts(p, at, 256, mname, 0) && Accepts(p, NameEnd(p, at), 256, rname, 0);
  }

  lemma SoaReads(p: seq<byte>, f: Front, item: Item)
    requires DataAt(p, f, item.data) && item.data.RawData? && SoaAt(p, f.data, f.len)
    ensures var r1 := Decoded(p, f.data, 256);
            && r1.Some? && var r2 := Decoded(p, r1.value.1, 256);
            r2.Some? && r2.value.1 + 20 == f.data + f.len <= |p| && U32(p, r2.value.1 + 16) == SoaMinimum(item)
  {
    hide Decoded, U32, Reads, Join;
    var s := item.data.octets;
    var mname, h1 :| Accepts(p, f.data, 256, mname, h1);
    DecodedIs(p, f.data, 256, mname, h1);
    var rname, h2 :| Accepts(p, NameEnd(p, f.data), 256, rname, h2);
    DecodedIs(p, NameEnd(p, f.data), 256, rname, h2);
    EndsLater(p, f.data);
    EndsLater(p, NameEnd(p, f.data));
    U32Shift(p, f.data, s, |s| - 4);
  }

  lemma {:induction false} EndsLater(p: seq<byte>, j: int)
    requires 0 <= j
    ensures NameEnd(p, j) == -1 || NameEnd(p, j) > j
    decreases |p| - j
  {
    if j < |p| && 0 < p[j] < 0x40 { EndsLater(p, j + 1 + p[j] as int); }
  }

  /** The time that an authority section sets: the least of what its start-of-authority records say. */
  function SoaTtl(items: seq<Item>, ttl: u32): u32
    decreases |items|
  {
    if items == [] then ttl
    else if Matches(items[0], TYPE_SOA) then SoaTtl(items[1..], Min(Min(ttl, items[0].ttl), SoaMinimum(items[0])))
    else SoaTtl(items[1..], ttl)
  }

  ghost predicate AuthorityOk(item: Item) {
    Plain(item.name) && (Matches(item, TYPE_SOA) ==> SoaOk(item))
  }

  /** Where the data of a record that follows the draft stands in the message. */
  function DataStart(d: Draft, item: Item): int
    requires d.Draft? && FormatItem(d, item).Draft? && item.data.RawData?
  {
    |FormatItem(d, item).msg| - |item.data.octets|
  }

  /** Every start-of-authority record of a section can be read in the message `p`. */
  ghost predicate AuthorityFits(d: Draft, items: seq<Item>, p: seq<byte>)
    decreases |items|
  {
    items == [] ||
    (&& d.Draft? && FormatItem(d, items[0]).Draft? && Plain(items[0].name)
     && (Matches(items[0], TYPE_SOA) ==>
           items[0].data.RawData? && SoaAt(p, DataStart(d, items[0]), |items[0].data.octets|))
     && AuthorityFits(FormatItem(d, items[0]), items[1..], p))
  }

  /** Records whose names have no pointers always can. */
  lemma {:induction false} PlainAuthorityFits(d: Draft, items: seq<Item>, p: seq<byte>)
    requires d.Draft? && TableOk(d.msg, d.table) && |p| < 0x10000
    requires forall i :: 0 <= i < |items| ==> NulFree(items[i]) && AuthorityOk(items[i])
    requires FormatItems(d, items).Draft? && FormatItems(d, items).msg <= p
    ensures AuthorityFits(d, items, p)
    decreases |items|
  {
    hide TableOk, FormatItem, NulFree, Plain, ReadFront, Decoded, SoaNames, SoaAt;
    if items != [] {
      var item, d' := items[0], FormatItem(d, items[0]);
      FormatItemsPrefix(d', items[1..]);
      ItemReads(d, item, p);
      assert AuthorityOk(item);
      if Matches(item, TYPE_SOA) { SoaStands(p, DataStart(d, item), item); }
      PlainAuthorityFits(d', items[1..], p);
    }
  }

  /** Reading the authority section gives the least time of its start-of-authority records. */
  lemma {:induction false} AuthorityRead(d: Draft, items: seq<Item>, p: seq<byte>, ttl: u32)
    requires d.Draft? && TableOk(d.msg, d.table) && |p| < 0x10000
    requires forall i :: 0 <= i < |items| ==> NulFree(items[i])
    requires FormatItems(d, items).Draft? && FormatItems(d, items).msg <= p && AuthorityFits(d, items, p)
    ensures ReadAuthority(p, |d.msg|, |items|, ttl) == Some(SoaTtl(items, ttl))
    decreases |items|
  {
    hide TableOk, FormatItem, NulFree, Plain, ReadFront, Decoded, SoaAt, U32, SoaMinimum;
    if items != [] {
      var item, d' := items[0], FormatItem(d, items[0]);
      FormatItemsPrefix(d', items[1..]);
      ItemReads(d, item, p);
      if Matches(item, TYPE_SOA) {
        SoaReads(p, ReadFront(p, |d.msg|).value, item);
        AuthorityRead(d', items[1..], p, Min(Min(ttl, item.ttl), SoaMinimum(item)));
      } else {
        AuthorityRead(d', items[1..], p, ttl);
      }
    }
  }

  // ------------------------------------------------------------ the whole message

  lemma HeaderReads(sr: ServerRequest, flags: u16, p: seq<byte>)
    requires Header(sr, flags) <= p
    ensures |p| >= 12 && U16(p, 0) == sr.transId && U16(p, 2) == flags
    ensures U16(p, 4) == |sr.questions| % 0x10000 && U16(p, 6) == |sr.answer| % 0x10000
    ensures U16(p, 8) == |sr.authority| % 0x10000 && U16(p, 10) == |sr.additional| % 0x10000
  {
    hide Be16, U16;
    var a, b, c, d := Be16(sr.transId), Be16(flags), Be16(|sr.questions|), Be16(|sr.answer|);
    var e, f := Be16(|sr.authority|), Be16(|sr.additional|);
    var h := Header(sr, flags);
    assert h == a + b + c + d + e + f;
    assert h[0..2] == a && h[2..4] == b && h[4..6] == c && h[6..8] == d && h[8..10] == e && h[10..12] == f;
    NumberReads(p, h, 0, sr.transId);
    NumberReads(p, h, 2, flags);
    NumberReads(p, h, 4, |sr.questions|);
    NumberReads(p, h, 6, |sr.answer|);
    NumberReads(p, h, 8, |sr.authority|);
    NumberReads(p, h, 10, |sr.additional|);
  }

  /** What the header says: whose answer this is, the flags, and how many records there are, in 16 bits. */
  predicate HeaderIs(p: seq<byte>, sr: ServerRequest, flags: u16) {
    && |p| >= 12 && U16(p, 0) == sr.transId && U16(p, 2) == flags
    && U16(p, 4) == |sr.questions| % 0x10000 && U16(p, 6) == |sr.answer| % 0x10000
    && U16(p, 8) == |sr.authority| % 0x10000 && U16(p, 10) == |sr.additional| % 0x10000
  }

  /** Every response that is sent starts with the header of the request it answers; a truncated one says so. */
  lemma ResponseHeader(sr: ServerRequest, err: int)
    ensures match Format(sr, err)
            case Refused(_) => true
            case Whole(msg) => HeaderIs(msg, sr, ResponseFlags(sr.flags, err))
            case Truncated(header) => HeaderIs(header, sr, SetTruncated(ResponseFlags(sr.flags, err)))
  {
    hide Header, U16, ResponseFlags, SetTruncated;
    match Format(sr, err) {
      case Whole(msg) =>
        FormatPrefix(sr, err);
        HeaderReads(sr, ResponseFlags(sr.flags, err), msg);
      case Truncated(header) => HeaderReads(sr, SetTruncated(ResponseFlags(sr.flags, err)), header);
      case _ =>
    }
  }

  lemma FormatPrefix(sr: ServerRequest, err: int)
    requires FormatBody(sr, err).Draft?
    ensures Header(sr, ResponseFlags(sr.flags, err)) <= FormatBody(sr, err).msg
  {
    hide Header, FormatQuestions, FormatItems, ResponseFlags;
    var start := Draft(Header(sr, ResponseFlags(sr.flags, err)), []);
    var d0 := FormatQuestions(start, sr.questions);
    FormatItemsPrefix(FormatItems(FormatItems(d0, sr.answer), sr.authority), sr.additional);
    FormatItemsPrefix(FormatItems(d0, sr.answer), sr.authority);
    FormatItemsPrefix(d0, sr.answer);
    FormatQuestionsPrefix(start, sr.questions);
  }

  lemma {:induction false} FormatQuestionsPrefix(d: Draft, qs: seq<Question>)
    requires FormatQuestions(d, qs).Draft?
    ensures d.Draft? && d.msg <= FormatQuestions(d, qs).msg
    decreases |qs|
  {
    hide Encode;
    if qs != [] {
      var e := Encode(|d.msg|, BUF_LEN, qs[0].name, d.table, MAX_LABELS);
      var d' := Draft(d.msg + e.bytes + (Be16(qs[0].qtype) + Be16(qs[0].qclass)), e.table);
      FormatQuestionsPrefix(d', qs[1..]);
    }
  }

  /** The flags of a response: those of the query, with the bit that makes it one and those of the error code set. */
  lemma FlagsBitwise(flags: u16, err: int)
    requires 0 <= err < 16
    ensures var r := ResponseFlags(flags, err);
            && r >= 0x8000 && r / 16 % 0x800 == flags / 16 % 0x800
            && forall w :: w in {1, 2, 4, 8} ==>
                 Bit(r % 16, w) == if Bit(flags % 16, w) == 1 || Bit(err, w) == 1 then 1 else 0
  {
    FlagParts(flags, err);
    hide Or4, ResponseFlags, Bit;
    forall w | w in {1, 2, 4, 8}
      ensures Bit(Or4(flags % 16, err), w) == if Bit(flags % 16, w) == 1 || Bit(err, w) == 1 then 1 else 0
    {
      OrBit(flags % 16, err, w);
    }
  }

  lemma FlagParts(flags: u16, err: int)
    requires 0 <= err < 16
    ensures var r := ResponseFlags(flags, err);
            r >= 0x8000 && r / 16 % 0x800 == flags / 16 % 0x800 && r % 16 == Or4(flags % 16, err)
  {
    hide Or4;
    var r, low := ResponseFlags(flags, err), Or4(flags % 16, err);
    assert r == 16 * (0x800 + flags % 0x8000 / 16) + low;
    assert r / 16 == 0x800 + flags % 0x8000 / 16 && r % 16 == low;
  }

  lemma OrBit(a: nat, b: nat, w: nat)
    requires a < 16 && b < 16 && w in {1, 2, 4, 8}
    ensures Bit(Or4(a, b), w) == if Bit(a, w) == 1 || Bit(b, w) == 1 then 1 else 0
  {
    var x, y := Or1(Bit(a, 8), Bit(b, 8)), Or1(Bit(a, 4), Bit(b, 4));
    var z, t := Or1(Bit(a, 2), Bit(b, 2)), Or1(Bit(a, 1), Bit(b, 1));
    NibbleBit(x, y, z, t, w);
  }

  lemma NibbleBit(x: int, y: int, z: int, t: int, w: nat)
    requires 0 <= x < 2 && 0 <= y < 2 && 0 <= z < 2 && 0 <= t < 2 && w in {1, 2, 4, 8}
    ensures Bit(8 * x + 4 * y + 2 * z + t, w) == if w == 8 then x else if w == 4 then y else if w == 2 then z else t
  {
  }

  /** Truncation sets one bit and leaves the others. */
  lemma TruncatedBitwise(flags: u16)
    ensures var r := SetTruncated(flags);
            Bit(r, 0x200) == 1 && r % 0x200 == flags % 0x200 && r / 0x400 == flags / 0x400
  {
  }

  /** The sections that a message of at most 64 KB has room for are counted exactly. */
  lemma HeaderCounts(sr: ServerRequest, flags: u16, p: seq<byte>)
    requires Header(sr, flags) <= p
    requires |sr.questions| < 0x10000 && |sr.answer| < 0x10000 && |sr.authority| < 0x10000
    ensures |p| >= 12 && U16(p, 2) == flags && U16(p, 4) == |sr.questions|
    ensures U16(p, 6) == |sr.answer| && U16(p, 8) == |sr.authority|
  {
    hide Header, U16;
    HeaderReads(sr, flags, p);
  }

  /** The address octets of the matching records, in order. */
  function Addresses(items: seq<Item>, rtype: int): seq<byte>
    decreases |items|
  {
    if items == [] then []
    else
      (if Matches(items[0], rtype) && items[0].data.RawData? then items[0].data.octets else [])
      + Addresses(items[1..], rtype)
  }

  /** The least time to live of the matching records that are read: those before which fewer than
      `room` octets have been taken. */
  function LeastTtl(items: seq<Item>, rtype: int, taken: nat, room: nat, ttl: u32): u32
    decreases |items|
  {
    if items == [] || taken >= room then ttl
    else if Matches(items[0], rtype) && items[0].data.RawData? then
      LeastTtl(items[1..], rtype, taken + |items[0].data.octets|, room, Min(ttl, items[0].ttl))
    else LeastTtl(items[1..], rtype, taken, room, ttl)
  }

  predicate HasMatch(items: seq<Item>, rtype: int) {
    exists i :: 0 <= i < |items| && Matches(items[i], rtype)
  }

  function Take(s: seq<byte>, n: nat): seq<byte> {
    if |s| <= n then s else s[..n]
  }

  /** Reading record by record amounts to cutting the concatenation. */
  lemma {:induction false} CollectClosed(items: seq<Item>, rep: Reply, req: Request, hostNameMax: nat)
    requires |rep.addrs| < AddrRoom(req.rtype) && ReadProper(items, |rep.addrs|, req, hostNameMax)
    ensures var r, room := Collect(items, rep, req, hostNameMax), AddrRoom(req.rtype);
            && r.0.addrs == Take(rep.addrs + Addresses(items, req.rtype), room)
            && r.0.ttl == LeastTtl(items, req.rtype, |rep.addrs|, room, rep.ttl)
            && r.0.haveAnswer == (rep.haveAnswer || HasMatch(items, req.rtype))
            && (r.1 ==> r.0.haveAnswer)
    decreases |items|
  {
    hide Width, AddrRoom;
    if items == [] {
      assert rep.addrs + [] == rep.addrs;
    } else {
      var item, rest, room := items[0], items[1..], AddrRoom(req.rtype);
      assert Proper(item, req, hostNameMax);
      assert HasMatch(items, req.rtype) <==> Matches(item, req.rtype) || HasMatch(rest, req.rtype);
      if Matches(item, req.rtype) {
        var rep' := Gather(rep, item, room);
        ConcatAssoc(rep.addrs, item.data.octets, Addresses(rest, req.rtype));
        if |rep'.addrs| == room {
          assert Take(rep.addrs + Addresses(items, req.rtype), room) == rep'.addrs;
        } else {
          assert rep'.addrs == rep.addrs + item.data.octets;
          CollectClosed(rest, rep', req, hostNameMax);
        }
      } else {
        assert [] + Addresses(rest, req.rtype) == Addresses(rest, req.rtype);
        if item.rtype == TYPE_CNAME && req.cnameWanted && rep.cname.None? {
          CollectClosed(rest, rep.(cname := Some(item.data.name)), req, hostNameMax);
        } else {
          CollectClosed(rest, rep, req, hostNameMax);
        }
      }
    }
  }

  /** The first alias record, of any class. */
  function FirstAlias(items: seq<Item>): (c: nat)
    ensures c <= |items| && (c < |items| ==> items[c].rtype == TYPE_CNAME)
    ensures forall i :: 0 <= i < c ==> items[i].rtype != TYPE_CNAME
    decreases |items|
  {
    if items == [] || items[0].rtype == TYPE_CNAME then 0 else 1 + FirstAlias(items[1..])
  }

  /** The target of the first alias record, if it comes before the addresses fill the reply. */
  function Alias(items: seq<Item>, rtype: int, room: int): Option<Name> {
    var c := FirstAlias(items);
    if c < |items| && |Addresses(items[..c], rtype)| < room && items[c].data.NameData? then Some(items[c].data.name)
    else None
  }

  lemma {:induction false} CollectAlias(items: seq<Item>, rep: Reply, req: Request, hostNameMax: nat)
    requires |rep.addrs| < AddrRoom(req.rtype) && ReadProper(items, |rep.addrs|, req, hostNameMax)
    requires req.rtype != TYPE_CNAME
    ensures var r := Collect(items, rep, req, hostNameMax).0;
            && r.ptrName == rep.ptrName
            && r.cname == if rep.cname.Some? || !req.cnameWanted then rep.cname
                          else Alias(items, req.rtype, AddrRoom(req.rtype) - |rep.addrs|)
    decreases |items|
  {
    hide Width, AddrRoom, NulFree, Plain;
    if items != [] {
      var item, rest, room := items[0], items[1..], AddrRoom(req.rtype);
      assert Proper(item, req, hostNameMax);
      var c := FirstAlias(rest);
      if Matches(item, req.rtype) {
        AliasRest(items, req.rtype, room - |rep.addrs|);
        var rep' := Gather(rep, item, room);
        if |rep'.addrs| < room { CollectAlias(rest, rep', req, hostNameMax); }
      } else if item.rtype == TYPE_CNAME && req.cnameWanted && rep.cname.None? {
        assert items[..0] == [];
        CollectAlias(rest, rep.(cname := Some(item.data.name)), req, hostNameMax);
      } else {
        if item.rtype != TYPE_CNAME { AliasRest(items, req.rtype, room - |rep.addrs|); }
        CollectAlias(rest, rep, req, hostNameMax);
      }
    }
  }

  lemma AliasRest(items: seq<Item>, rtype: int, room: int)
    requires items != [] && items[0].rtype != TYPE_CNAME
    ensures var n := if Matches(items[0], rtype) && items[0].data.RawData? then |items[0].data.octets| else 0;
            && Alias(items, rtype, room) == Alias(items[1..], rtype, room - n)
            && (n >= room ==> Alias(items, rtype, room).None?)
  {
    var c := FirstAlias(items[1..]);
    assert items[..c + 1][1..] == items[1..][..c];
    assert Addresses(items[..c + 1], rtype) ==
           (if Matches(items[0], rtype) && items[0].data.RawData? then items[0].data.octets else [])
           + Addresses(items[1..][..c], rtype);
  }

  /** `req` is a query for `name`, and `sr` was received with it as its one question. */
  ghost predicate Asks(sr: ServerRequest, req: Request, name: Name, exact: bool) {
    && |sr.questions| == 1
    && NoNul(name) && Plain(name) && BuildRequest(name, sr.transId, req.rtype) == Some(req.packet)
    && NoNul(sr.questions[0].name) && Plain(sr.questions[0].name) && SameName(sr.questions[0].name, name, exact)
  }

  /** The header flags report neither truncation nor an error other than a missing name. */
  predicate NoError(flags: u16) {
    Bit(flags, 0x200) == 0 && flags % 16 in {0, 3}
  }

  lemma FormatSections(sr: ServerRequest, err: int, d0: Draft, d1: Draft, d2: Draft, msg: seq<byte>)
    requires Format(sr, err) == Whole(msg)
    requires d0 == FormatQuestions(Draft(Header(sr, ResponseFlags(sr.flags, err)), []), sr.questions)
    requires d1 == FormatItems(d0, sr.answer) && d2 == FormatItems(d1, sr.authority)
    ensures |msg| <= MAX_RESPONSE && d0.Draft? && d1.Draft? && d2.Draft?
    ensures d0.msg <= d1.msg <= d2.msg <= msg
  {
    hide Header, FormatQuestions, FormatItems, ResponseFlags;
    FormatItemsPrefix(d2, sr.additional);
    FormatItemsPrefix(d1, sr.authority);
    FormatItemsPrefix(d0, sr.answer);
  }

  lemma QuestionsPrefix(d: Draft, q: Question)
    requires d.Draft? && FormatQuestions(d, [q]).Draft?
    ensures d.msg <= FormatQuestions(d, [q]).msg
  {
    hide Encode;
    assert [q][1..] == [];
  }

  /** The message up to its authority section. */
  function UpToAuthority(sr: ServerRequest, err: int): Draft {
    FormatItems(FormatQuestions(Draft(Header(sr, ResponseFlags(sr.flags, err)), []), sr.questions), sr.answer)
  }

  /** A whole response to an address query is read back as the answer records that were put in. */
  lemma BodyRead(sr: ServerRequest, err: int, msg: seq<byte>, req: Request, name: Name, exact: bool, hostNameMax: nat)
    requires Format(sr, err) == Whole(msg) && Asks(sr, req, name, exact)
    requires req.rtype == TYPE_A || req.rtype == TYPE_AAAA
    requires ReadProper(sr.answer, 0, req, hostNameMax) && forall i :: 0 <= i < |sr.answer| ==> NulFree(sr.answer[i])
    requires forall i :: 0 <= i < |sr.authority| ==> NulFree(sr.authority[i])
    requires HasMatch(sr.answer, req.rtype) || AuthorityFits(UpToAuthority(sr, err), sr.authority, msg)
    ensures |msg| >= 12 && U16(msg, 2) == ResponseFlags(sr.flags, err)
    ensures var rep := Collect(sr.answer, Reply(false, [], None, None, NO_TTL), req, hostNameMax).0;
            Body(msg, req, exact, hostNameMax)
            == Some(if HasMatch(sr.answer, req.rtype) then rep else rep.(ttl := SoaTtl(sr.authority, rep.ttl)))
  {
    hide Format, Header, ResponseFlags, FormatItems, TableOk, Proper, ReadProper, NulFree, Plain, NoNul, Collect;
    hide ReadAnswers, ReadQuestions, ReadAuthority, U16, AuthorityFits, SoaTtl;
    var flags := ResponseFlags(sr.flags, err);
    var start := Draft(Header(sr, flags), []);
    var d0 := FormatQuestions(start, sr.questions);
    var d1 := FormatItems(d0, sr.answer);
    var d2 := FormatItems(d1, sr.authority);
    assert sr.questions == [sr.questions[0]];
    FormatSections(sr, err, d0, d1, d2, msg);
    QuestionsPrefix(start, sr.questions[0]);
    QuestionRead(Header(sr, flags), sr.questions[0], msg, req, exact, name, sr.transId, req.rtype);
    SectionOk(d0, sr.answer);
    SectionOk(d1, sr.authority);
    HeaderCounts(sr, flags, msg);
    var rep := Reply(false, [], None, None, NO_TTL);
    AnswersRead(d0, sr.answer, msg, rep, req, hostNameMax);
    CollectClosed(sr.answer, rep, req, hostNameMax);
    if !HasMatch(sr.answer, req.rtype) {
      AuthorityRead(d1, sr.authority, msg, Collect(sr.answer, rep, req, hostNameMax).0.ttl);
    }
  }

  /** The response to an address query, if it fits in 512 octets, gives the client the addresses of the
      matching records in order, cut at 32, with the least time to live of the records read, whatever
      other records lie between them and whatever the authority section holds.  When no record matches,
      the time is what the start-of-authority records say. */
  lemma ReplyRoundTrip(sr: ServerRequest, err: int, msg: seq<byte>, req: Request, name: Name, exact: bool,
                       hostNameMax: nat)
    requires Format(sr, err) == Whole(msg) && Asks(sr, req, name, exact)
    requires req.rtype == TYPE_A || req.rtype == TYPE_AAAA
    requires NoError(ResponseFlags(sr.flags, err))
    requires ReadProper(sr.answer, 0, req, hostNameMax) && forall i :: 0 <= i < |sr.answer| ==> NulFree(sr.answer[i])
    requires forall i :: 0 <= i < |sr.authority| ==> NulFree(sr.authority[i])
    requires HasMatch(sr.answer, req.rtype) || AuthorityFits(UpToAuthority(sr, err), sr.authority, msg)
    ensures var out, room := Parse(msg, Some(req), exact, hostNameMax), AddrRoom(req.rtype);
            var least := LeastTtl(sr.answer, req.rtype, 0, room, NO_TTL);
            var ttl := if HasMatch(sr.answer, req.rtype) then least else SoaTtl(sr.authority, NO_TTL);
            && |msg| >= 12 && |req.packet| >= 12 && U16(msg, 0) == U16(req.packet, 0)
            && out.Handled? && out.flags == ResponseFlags(sr.flags, err) && out.reply.Some?
            && out.reply.value.addrs == Take(Addresses(sr.answer, req.rtype), room)
            && out.reply.value.haveAnswer == HasMatch(sr.answer, req.rtype) && out.reply.value.ptrName.None?
            && out.reply.value.cname == (if req.cnameWanted then Alias(sr.answer, req.rtype, room) else None)
            && out.ttl == if ttl == NO_TTL then 0 else ttl
  {
    hide Format, ResponseFlags, ReadProper, Asks, NulFree, Body, Collect, Take, Addresses, LeastTtl, U16, Bit;
    hide AuthorityFits, UpToAuthority, SoaTtl, HasMatch, Alias;
    var rep := Reply(false, [], None, None, NO_TTL);
    FlagsAnswer(sr.flags, err);
    SameId(sr, err, msg, req, name, exact);
    BodyRead(sr, err, msg, req, name, exact, hostNameMax);
    CollectClosed(sr.answer, rep, req, hostNameMax);
    CollectAlias(sr.answer, rep, req, hostNameMax);
    if !HasMatch(sr.answer, req.rtype) { LeastOfNone(sr.answer, req.rtype, 0, AddrRoom(req.rtype), NO_TTL); }
    assert [] + Addresses(sr.answer, req.rtype) == Addresses(sr.answer, req.rtype);
  }

  /** The response carries the id of the query. */
  lemma SameId(sr: ServerRequest, err: int, msg: seq<byte>, req: Request, name: Name, exact: bool)
    requires Format(sr, err) == Whole(msg) && Asks(sr, req, name, exact)
    ensures |msg| >= 12 && |req.packet| >= 12 && U16(msg, 0) == U16(req.packet, 0)
  {
    hide Format, U16, ResponseFlags, SameName, Plain, NoNul;
    ResponseHeader(sr, err);
    QueryRead(name, req.packet, sr.transId, req.rtype);
  }

  lemma {:induction false} LeastOfNone(items: seq<Item>, rtype: int, taken: nat, room: nat, ttl: u32)
    requires !HasMatch(items, rtype)
    ensures LeastTtl(items, rtype, taken, room, ttl) == ttl
    decreases |items|
  {
    if items != [] {
      assert !Matches(items[0], rtype);
      forall i | 0 <= i < |items| - 1 ensures !Matches(items[1..][i], rtype) {
        assert items[1..][i] == items[i + 1];
      }
      LeastOfNone(items[1..], rtype, taken, room, ttl);
    }
  }

  lemma FlagsAnswer(flags: u16, err: int)
    ensures Bit(ResponseFlags(flags, err), 0x8000) == 1
  {
  }

  /** A response that was cut tells the client so, and nothing else of it is read. */
  lemma TruncatedReported(sr: ServerRequest, err: int, packet: seq<byte>, req: Request, exact: bool, hostNameMax: nat)
    requires Format(sr, err).Truncated? && Format(sr, err).header <= packet
    ensures var out := Parse(packet, Some(req), exact, hostNameMax);
            out.Handled? && Bit(out.flags, 0x200) == 1 && out.ttl == 0 && out.reply.None?
  {
    var flags := SetTruncated(ResponseFlags(sr.flags, err));
    var h := Format(sr, err).header;
    assert h == Header(sr, flags);
    FlagsAnswer(sr.flags, err);
    assert h[2..4] == Be16(flags) && packet[2..4] == h[2..4];
    U16At(packet, 2, flags);
    TruncatedBits(ResponseFlags(sr.flags, err));
  }

  lemma TruncatedBits(flags: u16)
    requires Bit(flags, 0x8000) == 1
    ensures Bit(SetTruncated(flags), 0x8000) == 1 && Bit(SetTruncated(flags), 0x200) == 1
  {
  }
}
