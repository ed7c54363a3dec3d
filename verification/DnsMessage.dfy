/**
 Whole DNS messages: the server's response formatter and the client's reply parser
 (libevent/evdns.c), and what the second makes of the output of the first.
 */
module DnsMessage {
  import opened Common
  import opened DnsName

  const TYPE_A := 1
  const TYPE_CNAME := 5
  const TYPE_SOA := 6
  const TYPE_PTR := 12
  const TYPE_AAAA := 28
  const CLASS_INET := 1

  const BUF_LEN := 1500
  const MAX_RESPONSE := 512
  const MAX_ADDRS := 32
  const NO_TTL := 0xffffffff

  type u16 = x: int | 0 <= x < 0x10000
  type u32 = x: int | 0 <= x < 0x1_0000_0000

  // ------------------------------------------------------------ the server's side

  datatype Question = Question(name: Name, qtype: u16, qclass: u16)

  /** `is_name` selects between a name to be compressed and octets to be copied. */
  datatype RData = NameData(name: Name) | RawData(octets: seq<byte>)

  datatype Item = Item(name: Name, rtype: u16, rclass: u16, ttl: u32, data: RData)

  datatype ServerRequest = ServerRequest(
    transId: u16, flags: u16, questions: seq<Question>,
    answer: seq<Item>, authority: seq<Item>, additional: seq<Item>)

  /** A message being written: its octets and compression table, or why it cannot be finished. */
  datatype Draft = Draft(msg: seq<byte>, table: Table) | Overflow | Failed(code: int)

  function Bit(x: int, weight: nat): int
    requires weight > 0
  {
    x / weight % 2
  }

  function Or1(a: int, b: int): int {
    if a == 1 || b == 1 then 1 else 0
  }

  /** Bitwise or of two four-bit numbers. */
  function Or4(a: int, b: int): (r: int)
    ensures 0 <= r < 16
  {
    8 * Or1(Bit(a, 8), Bit(b, 8)) + 4 * Or1(Bit(a, 4), Bit(b, 4))
    + 2 * Or1(Bit(a, 2), Bit(b, 2)) + Or1(Bit(a, 1), Bit(b, 1))
  }

  /** `flags | 0x8000 | err`, for a four-bit `err`. */
  function ResponseFlags(flags: u16, err: int): (r: u16) {
    0x8000 + flags % 0x8000 / 16 * 16 + Or4(flags % 16, err)
  }

  /** The truncated bit, `0x0200`, set. */
  function SetTruncated(flags: u16): (r: u16) {
    flags + 0x200 * (1 - Bit(flags, 0x200))
  }

  function Header(sr: ServerRequest, flags: u16): (r: seq<byte>)
    ensures |r| == 12
  {
    Be16(sr.transId) + Be16(flags) + Be16(|sr.questions|)
    + Be16(|sr.answer|) + Be16(|sr.authority|) + Be16(|sr.additional|)
  }

  function FormatQuestions(d: Draft, qs: seq<Question>): Draft
    decreases |qs|
  {
    if !d.Draft? || qs == [] then d
    else
      match Encode(|d.msg|, BUF_LEN, qs[0].name, d.table, MAX_LABELS)
      case TooLongLabel => Failed(-1)
      case NoRoom => Failed(-2)
      case Encoded(bytes, table) =>
        var msg := d.msg + bytes;
        if |msg| + 4 > BUF_LEN then Overflow
        else FormatQuestions(Draft(msg + (Be16(qs[0].qtype) + Be16(qs[0].qclass)), table), qs[1..])
  }

  /** The fixed part of a resource record, between its name and its data length. */
  function Fixed(item: Item): (r: seq<byte>)
    ensures |r| == 8
  {
    Be16(item.rtype) + Be16(item.rclass) + Be32(item.ttl)
  }

  function FormatData(msg: seq<byte>, table: Table, data: RData): Draft {
    match data
    case NameData(name) =>
      (match Encode(|msg| + 2, BUF_LEN, name, table, MAX_LABELS)
       case Encoded(bytes, table') => Draft(msg + Be16(|bytes|) + bytes, table')
       case _ => Overflow)
    case RawData(octets) =>
      if |msg| + 2 + |octets| > BUF_LEN then Overflow
      else Draft(msg + Be16(|octets|) + octets, table)
  }

  function FormatItem(d: Draft, item: Item): Draft
    requires d.Draft?
  {
    match Encode(|d.msg|, BUF_LEN, item.name, d.table, MAX_LABELS)
    case Encoded(bytes, table) =>
      if |d.msg + bytes| + 8 > BUF_LEN then Overflow
      else FormatData(d.msg + bytes + Fixed(item), table, item.data)
    case _ => Overflow
  }

  function FormatItems(d: Draft, items: seq<Item>): Draft
    decreases |items|
  {
    if !d.Draft? || items == [] then d else FormatItems(FormatItem(d, items[0]), items[1..])
  }

  function FormatBody(sr: ServerRequest, err: int): Draft {
    var d0 := FormatQuestions(Draft(Header(sr, ResponseFlags(sr.flags, err)), []), sr.questions);
    FormatItems(FormatItems(FormatItems(d0, sr.answer), sr.authority), sr.additional)
  }

  /** What is sent: a whole message, or 512 octets of which only the header is determined. */
  datatype Response = Refused(code: int) | Whole(msg: seq<byte>) | Truncated(header: seq<byte>)

  function Format(sr: ServerRequest, err: int): Response {
    if err < 0 || err > 15 then Refused(-1)
    else
      match FormatBody(sr, err)
      case Failed(code) => Refused(code)
      case Draft(msg, _) =>
        if |msg| > MAX_RESPONSE then Truncated(Header(sr, SetTruncated(ResponseFlags(sr.flags, err)))) else Whole(msg)
      case Overflow => Truncated(Header(sr, SetTruncated(ResponseFlags(sr.flags, err))))
  }

  // ------------------------------------------------------------ the client's side

  /** An outstanding query: its packet and what is wanted from the reply.  `cnameWanted` stands for a
      non-null `put_cname_in_ptr`. */
  datatype Request = Request(packet: seq<byte>, rtype: u16, cnameWanted: bool)

  /** `evdns_request_data_build`, in a buffer of `evdns_request_len` octets: no table, so no compression. */
  function BuildRequest(name: Name, transId: u16, qtype: u16): Option<seq<byte>> {
    var cap := 96 + |name| + 2 + 4;
    match Encode(12, cap, name, [], 0)
    case Encoded(bytes, _) =>
      if 12 + |bytes| + 4 > cap then None
      else Some(Be16(transId) + Be16(0x0100) + Be16(1) + Be16(0) + Be16(0) + Be16(0) + bytes +
          (Be16(qtype) + Be16(CLASS_INET)))
    case _ => None
  }

  function U16(p: seq<byte>, j: int): (r: u16)
    requires 0 <= j && j + 2 <= |p|
  {
    p[j] as int * 256 + p[j + 1] as int
  }

  function U32(p: seq<byte>, j: int): (r: u32)
    requires 0 <= j && j + 4 <= |p|
  {
    U16(p, j) * 0x10000 + U16(p, j + 2)
  }

  /** The fields in front of a record's data, and where the data starts. */
  datatype Front = Front(rtype: u16, rclass: u16, ttl: u32, len: u16, data: nat)

  ghost function ReadFront(p: seq<byte>, j: int): Option<Front> {
    match Decoded(p, j, 256)
    case None => None
    case Some((_, e)) =>
      if e + 10 > |p| then None
      else Some(Front(U16(p, e), U16(p, e + 2), U32(p, e + 4), U16(p, e + 8), e + 10))
  }

  datatype Reply = Reply(haveAnswer: bool, addrs: seq<byte>, ptrName: Option<Name>, cname: Option<Name>, ttl: u32)

  /** Octets in one address of the type asked for, and in as many as a reply holds. */
  function Width(rtype: int): nat {
    if rtype == TYPE_A then 4 else 16
  }

  function AddrRoom(rtype: int): nat {
    if rtype == TYPE_A then MAX_ADDRS * 4 else MAX_ADDRS * 16
  }

  /** After one record: go on at `j`, stop reading answers, or give up. */
  datatype Step = Next(reply: Reply, j: nat) | Stop(reply: Reply) | GiveUp

  /** An address record of the type asked for: whole addresses only, at most 32 in all.  The code counts
      addresses; here their octets are counted. */
  function TakeAddresses(p: seq<byte>, f: Front, rep: Reply): (r: Step)
    requires |rep.addrs| <= AddrRoom(f.rtype)
    ensures r.Next? ==> |r.reply.addrs| <= AddrRoom(f.rtype)
  {
    if f.len % Width(f.rtype) != 0 then GiveUp
    else
      var n := Min(AddrRoom(f.rtype) - |rep.addrs|, f.len);
      if f.data + n > |p| then GiveUp
      else
        var rep' := rep.(addrs := rep.addrs + p[f.data..f.data + n], ttl := Min(rep.ttl, f.ttl), haveAnswer := true);
        if |rep'.addrs| == AddrRoom(f.rtype) then Stop(rep') else Next(rep', f.data + n)
  }

  ghost function ReadAnswer(p: seq<byte>, f: Front, rep: Reply, req: Request, hostNameMax: nat): (r: Step)
    requires |rep.addrs| <= AddrRoom(req.rtype)
    ensures r.Next? ==> |r.reply.addrs| <= AddrRoom(req.rtype)
  {
    if (f.rtype == TYPE_A || f.rtype == TYPE_AAAA) && f.rclass == CLASS_INET then
      if req.rtype != f.rtype then Next(rep, f.data + f.len)
      else TakeAddresses(p, f, rep)
    else if f.rtype == TYPE_PTR && f.rclass == CLASS_INET then
      if req.rtype != TYPE_PTR then Next(rep, f.data + f.len)
      else
        match Decoded(p, f.data, hostNameMax)
        case None => GiveUp
        case Some((name, _)) => Stop(rep.(ptrName := Some(name), ttl := Min(rep.ttl, f.ttl), haveAnswer := true))
    else if f.rtype == TYPE_CNAME then
      if !req.cnameWanted || rep.cname.Some? then Next(rep, f.data + f.len)
      else
        match Decoded(p, f.data, hostNameMax)
        case None => GiveUp
        case Some((name, e)) => Next(rep.(cname := Some(name)), e)
    else Next(rep, f.data + f.len)
  }

  ghost function ReadAnswers(p: seq<byte>, j: nat, n: nat, rep: Reply, req: Request, hostNameMax: nat): (r: Step)
    requires |rep.addrs| <= AddrRoom(req.rtype)
    ensures r.Next? ==> |r.reply.addrs| <= AddrRoom(req.rtype)
    decreases n
  {
    if n == 0 then Next(rep, j)
    else
      match ReadFront(p, j)
      case None => GiveUp
      case Some(f) =>
        match ReadAnswer(p, f, rep, req, hostNameMax)
        case Next(rep', j') => ReadAnswers(p, j', n - 1, rep', req, hostNameMax)
        case step => step
  }

  /** The negative-caching time of the authority section; None when the section is malformed. */
  ghost function ReadAuthority(p: seq<byte>, j: nat, n: nat, ttl: u32): Option<u32>
    decreases n
  {
    if n == 0 then Some(ttl)
    else
      match ReadFront(p, j)
      case None => None
      case Some(f) =>
        if f.rtype == TYPE_SOA && f.rclass == CLASS_INET then
          match Decoded(p, f.data, 256)
          case None => None
          case Some((_, e1)) =>
            match Decoded(p, e1, 256)
            case None => None
            case Some((_, e2)) =>
              if e2 + 20 > |p| then None
              else ReadAuthority(p, e2 + 20, n - 1, Min(Min(ttl, f.ttl), U32(p, e2 + 16)))
        else ReadAuthority(p, f.data + f.len, n - 1, ttl)
  }

  /** A string stops at its first zero. */
  function CString(s: seq<byte>): seq<byte> {
    if s == [] || s[0] == 0 then [] else [s[0]] + CString(s[1..])
  }

  function ToLower(b: byte): byte {
    if 65 <= b <= 90 then b + 32 else b
  }

  function Lowered(s: seq<byte>): seq<byte> {
    seq(|s|, i requires 0 <= i < |s| => ToLower(s[i]))
  }

  predicate SameName(a: Name, b: Name, exact: bool) {
    if exact then CString(a) == CString(b) else Lowered(CString(a)) == Lowered(CString(b))
  }

  /** The question section: some question must carry the name that was asked for at the same offset of
      the query.  Yields the offset after the section. */
  ghost function ReadQuestions(p: seq<byte>, j: nat, n: nat, req: Request, exact: bool, matched: bool): Option<nat>
    decreases n
  {
    if n == 0 then if matched then Some(j) else None
    else
      match (Decoded(p, j, 256), Decoded(req.packet, j, 256))
      case (Some((a, e)), Some((b, _))) =>
        if e + 4 > |p| then None
        else ReadQuestions(p, e + 4, n - 1, req, exact, matched || SameName(a, b, exact))
      case _ => None
  }

  /** What `reply_parse` does with a packet: nothing, or a call of `reply_handle`. */
  datatype Outcome = Ignored | Handled(flags: u16, ttl: u32, reply: Option<Reply>)

  ghost function Body(p: seq<byte>, req: Request, exact: bool, hostNameMax: nat): Option<Reply>
    requires |p| >= 12
  {
    match ReadQuestions(p, 12, U16(p, 4), req, exact, false)
    case None => None
    case Some(j) =>
      match ReadAnswers(p, j, U16(p, 6), Reply(false, [], None, None, NO_TTL), req, hostNameMax)
      case GiveUp => None
      case Stop(rep) => Some(rep)
      case Next(rep, j') =>
        if rep.haveAnswer then Some(rep)
        else
          match ReadAuthority(p, j', U16(p, 8), rep.ttl)
          case None => None
          case Some(ttl) => Some(rep.(ttl := ttl))
  }

  /** `req` is the request found by the packet's transaction id. */
  ghost function Parse(p: seq<byte>, req: Option<Request>, exact: bool, hostNameMax: nat): Outcome {
    if |p| < 12 || req.None? then Ignored
    else
      var flags := U16(p, 2);
      if Bit(flags, 0x8000) == 0 then Ignored
      else if Bit(flags, 0x200) == 1 || flags % 16 !in {0, 3} then Handled(flags, 0, None)
      else
        match Body(p, req.value, exact, hostNameMax)
        case None => Handled(flags, 0, None)
        case Some(rep) => Handled(flags, if rep.ttl == NO_TTL then 0 else rep.ttl, Some(rep))
  }
}
