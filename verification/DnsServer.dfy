/** The loops of libevent/evdns.c that write a response and read a reply, against the functions of `DnsMessage`. */
module DnsServer {
  import opened Common
  import opened DnsName
  import opened DnsMessage

  // ------------------------------------------------------------ writing a response

  /** The buffer holds the draft's octets up to `j`, and the table its entries. */
  ghost predicate Holds(d: Draft, buf: array<byte>, j: nat, table: LabelTable)
    reads buf, table
  {
    && buf.Length == BUF_LEN + 1 && d.Draft? && j <= buf.Length
    && buf[..j] == d.msg && table.labels == d.table
  }

  /** The first `j` octets are as they were. */
  ghost predicate Kept(was: seq<byte>, buf: seq<byte>, j: nat) {
    |was| == |buf| && forall i :: 0 <= i < j && i < |buf| ==> buf[i] == was[i]
  }

  method Put(buf: array<byte>, j: nat, bytes: seq<byte>)
    requires j + |bytes| <= buf.Length
    modifies buf
    ensures buf[..j + |bytes|] == old(buf[..j]) + bytes
    ensures Kept(old(buf[..]), buf[..], j)
  {
    forall i | 0 <= i < |bytes| { buf[j + i] := bytes[i]; }
    assert buf[..j + |bytes|] == buf[..j] + buf[j..j + |bytes|];
    assert buf[j..j + |bytes|] == bytes;
  }

  /** Write `name` at `j`; on success the buffer holds the longer message. */
  method PutName(buf: array<byte>, j: nat, name: Name, table: LabelTable, ghost msg: seq<byte>) returns (r: int)
    requires buf.Length == BUF_LEN + 1 && j <= buf.Length && buf[..j] == msg
    modifies buf, table
    ensures match old(Encode(j, BUF_LEN, name, table.labels, MAX_LABELS))
            case Encoded(bytes, t) => r == j + |bytes| <= buf.Length && buf[..r] == msg + bytes && table.labels == t
            case TooLongLabel => r == -1
            case NoRoom => r == -2
    ensures Kept(old(buf[..]), buf[..], j)
  {
    ghost var e, was := Encode(j, BUF_LEN, name, table.labels, MAX_LABELS), buf[..];
    OneMoreIsEnough(j, BUF_LEN, name, table.labels, MAX_LABELS);
    r := DnsnameToLabels(buf, BUF_LEN, j, name, table);
    if e.Encoded? {
      StandsPrefix(was, buf[..], j, e.bytes);
    }
  }

  lemma StandsPrefix(was: seq<byte>, buf: seq<byte>, start: nat, bytes: seq<byte>)
    requires Stands(was, buf, start, bytes) && start + |bytes| <= |buf|
    ensures buf[..start + |bytes|] == was[..start] + bytes
  {
    assert buf[..start + |bytes|] == buf[..start] + buf[start..start + |bytes|];
    assert buf[..start] == was[..start];
  }

  /** The data length and the data; the length of a name is filled in once the name is written. */
  method PutData(buf: array<byte>, j: nat, data: RData, table: LabelTable, ghost d: Draft) returns (ok: bool, end: nat)
    requires Holds(d, buf, j, table)
    modifies buf, table
    ensures var d' := FormatData(d.msg, d.table, data);
            ok == d'.Draft? && (ok ==> Holds(d', buf, end, table) && j <= end)
    ensures Kept(old(buf[..]), buf[..], j)
  {
    hide Encode, Be16;
    end := j;
    match data {
      case RawData(octets) =>
        if j + 2 + |octets| > BUF_LEN { return false, j; }
        Put(buf, j, Be16(|octets|));
        Put(buf, j + 2, octets);
        return true, j + 2 + |octets|;
      case NameData(name) =>
        ghost var e, was := Encode(j + 2, BUF_LEN, name, table.labels, MAX_LABELS), buf[..];
        OneMoreIsEnough(j + 2, BUF_LEN, name, table.labels, MAX_LABELS);
        var r := DnsnameToLabels(buf, BUF_LEN, j + 2, name, table);
        if r < 0 { return false, j; }
        EncodedSome(j + 2, BUF_LEN, name, old(table.labels), MAX_LABELS);
        ghost var now := buf[..];
        var two := Be16(r - (j + 2));
        buf[j], buf[j + 1] := two[0], two[1];
        PatchedLength(was, now, buf[..], j, e.bytes, two);
        return true, r;
    }
  }

  lemma EncodedSome(j: nat, cap: nat, name: Name, table: Table, limit: nat)
    requires Encode(j, cap, name, table, limit).Encoded?
    ensures Encode(j, cap, name, table, limit).bytes != []
  {
    LabelledCases(j, cap, name, table, limit);
  }

  lemma PatchedLength(was: seq<byte>, now: seq<byte>, buf: seq<byte>, j: nat, bytes: seq<byte>, two: seq<byte>)
    requires Stands(was, now, j + 2, bytes) && bytes != [] && |two| == 2
    requires |buf| == |now| && j + 2 <= |buf| && buf == now[..j] + two + now[j + 2..]
    ensures j + 2 + |bytes| <= |buf| && buf[..j + 2 + |bytes|] == was[..j] + two + bytes
  {
    var r := j + 2 + |bytes|;
    assert buf[..r] == buf[..j] + buf[j..j + 2] + buf[j + 2..r];
    assert buf[j + 2..r] == now[j + 2..r] == bytes;
    assert buf[..j] == now[..j] == was[..j];
  }

  method PutItem(buf: array<byte>, j: nat, item: Item, table: LabelTable, ghost d: Draft) returns (ok: bool, end: nat)
    requires Holds(d, buf, j, table)
    modifies buf, table
    ensures var d' := FormatItem(d, item);
            ok == d'.Draft? && (ok ==> Holds(d', buf, end, table) && j <= end)
    ensures Kept(old(buf[..]), buf[..], j)
  {
    hide Encode, FormatData, Fixed;
    end := j;
    var r := PutName(buf, j, item.name, table, d.msg);
    if r < 0 || r + 8 > BUF_LEN { return false, j; }
    ghost var named := Draft(buf[..r], table.labels);
    Put(buf, r, Fixed(item));
    ok, end := PutData(buf, r + 8, item.data, table, Draft(named.msg + Fixed(item), named.table));
  }

  method PutItems(buf: array<byte>, j: nat, items: seq<Item>, table: LabelTable, ghost d: Draft)
    returns (ok: bool, end: nat)
    requires Holds(d, buf, j, table)
    modifies buf, table
    ensures var d' := FormatItems(d, items);
            ok == d'.Draft? && (ok ==> Holds(d', buf, end, table) && j <= end)
    ensures Kept(old(buf[..]), buf[..], j)
  {
    hide FormatItem;
    var i := 0;
    ok, end := true, j;
    ghost var now := d;
    while i < |items|
      invariant i <= |items| && j <= end && Holds(now, buf, end, table)
      invariant Kept(old(buf[..]), buf[..], j)
      invariant FormatItems(d, items) == FormatItems(now, items[i..])
    {
      ghost var next := FormatItem(now, items[i]);
      assert items[i..][1..] == items[i + 1..];
      ok, end := PutItem(buf, end, items[i], table, now);
      if !ok { return; }
      now, i := next, i + 1;
    }
  }

  /** Marks the jump to the code's `overflow` label; the codes of failed names are -1 and -2. */
  const OVERFLOW := -3

  /** The questions; a name that cannot be written ends the call with its error. */
  method PutQuestions(buf: array<byte>, j: nat, qs: seq<Question>, table: LabelTable, ghost d: Draft) returns (end: int)
    requires Holds(d, buf, j, table)
    modifies buf, table
    ensures match FormatQuestions(d, qs)
            case Draft(msg, t) => j <= end && Holds(Draft(msg, t), buf, end, table)
            case Failed(code) => end == code
            case Overflow => end == OVERFLOW
    ensures Kept(old(buf[..]), buf[..], j)
  {
    hide Encode;
    var i := 0;
    end := j;
    ghost var now := d;
    while i < |qs|
      invariant i <= |qs| && j <= end && Holds(now, buf, end, table)
      invariant Kept(old(buf[..]), buf[..], j)
      invariant FormatQuestions(d, qs) == FormatQuestions(now, qs[i..])
    {
      assert qs[i..][1..] == qs[i + 1..];
      var r := PutName(buf, end, qs[i].name, table, now.msg);
      if r < 0 { return r; }
      if r + 4 > BUF_LEN { return OVERFLOW; }
      ghost var named := buf[..r];
      Put(buf, r, Be16(qs[i].qtype) + Be16(qs[i].qclass));
      now := Draft(named + (Be16(qs[i].qtype) + Be16(qs[i].qclass)), table.labels);
      end, i := r + 4, i + 1;
    }
  }


  lemma {:induction false} ItemsNeverFail(d: Draft, items: seq<Item>)
    requires !d.Failed?
    ensures !FormatItems(d, items).Failed?
    decreases |items|
  {
    if d.Draft? && items != [] {
      ItemsNeverFail(FormatItem(d, items[0]), items[1..]);
    }
  }

  lemma {:induction false} QuestionsFail(d: Draft, qs: seq<Question>)
    requires d.Draft?
    ensures FormatQuestions(d, qs).Failed? ==> FormatQuestions(d, qs).code in {-1, -2}
    decreases |qs|
  {
    hide Encode;
    if qs != [] {
      match Encode(|d.msg|, BUF_LEN, qs[0].name, d.table, MAX_LABELS)
      case Encoded(bytes, table) =>
        QuestionsFail(Draft(d.msg + bytes + (Be16(qs[0].qtype) + Be16(qs[0].qclass)), table), qs[1..]);
      case _ =>
    }
  }

  /** Header, questions and the three sections; the header survives an overflow. */
  method PutBody(buf: array<byte>, sr: ServerRequest, err: int) returns (end: int)
    requires buf.Length == BUF_LEN + 1
    modifies buf
    ensures match FormatBody(sr, err)
            case Draft(msg, _) => 0 <= end <= buf.Length && buf[..end] == msg
            case Failed(code) => end == code && code in {-1, -2}
            case Overflow => end == OVERFLOW
    ensures buf[..12] == Header(sr, ResponseFlags(sr.flags, err))
  {
    hide FormatQuestions, FormatItem, Header, ResponseFlags;
    ghost var flags := ResponseFlags(sr.flags, err);
    var table := new LabelTable();
    Put(buf, 0, Header(sr, ResponseFlags(sr.flags, err)));
    assert buf[..12] == [] + Header(sr, flags) == Header(sr, flags);
    ghost var first, start := buf[..], Draft(Header(sr, flags), []);
    ghost var d0 := FormatQuestions(start, sr.questions);
    QuestionsFail(start, sr.questions);
    end := PutQuestions(buf, 12, sr.questions, table, start);
    ghost var d1 := FormatItems(d0, sr.answer);
    ghost var d2 := FormatItems(d1, sr.authority);
    KeptPrefix(first, buf[..], 12);
    if end < 0 { return; }
    ItemsNeverFail(d0, sr.answer);
    ItemsNeverFail(d1, sr.authority);
    ItemsNeverFail(d2, sr.additional);
    var ok, j := PutItems(buf, end, sr.answer, table, d0);
    KeptPrefix(first, buf[..], 12);
    if ok {
      ok, j := PutItems(buf, j, sr.authority, table, d1);
      KeptPrefix(first, buf[..], 12);
    }
    if ok {
      ok, j := PutItems(buf, j, sr.additional, table, d2);
      KeptPrefix(first, buf[..], 12);
    }
    end := if ok then j else OVERFLOW;
  }

  lemma KeptPrefix(was: seq<byte>, buf: seq<byte>, j: nat)
    requires Kept(was, buf, j) && j <= |buf|
    ensures buf[..j] == was[..j]
  {
  }

  /** `evdns_server_request_format_response`: the code returned and, when it is 0, the octets to send. */
  method FormatResponse(sr: ServerRequest, err: int) returns (code: int, response: seq<byte>)
    ensures match Format(sr, err)
            case Refused(c) => code == c && c < 0
            case Whole(msg) => code == 0 && response == msg
            case Truncated(header) => code == 0 && |response| == MAX_RESPONSE && header <= response
  {
    hide FormatBody;
    if err < 0 || err > 15 { return -1, []; }
    var buf := new byte[BUF_LEN + 1];
    var end := PutBody(buf, sr, err);
    if end == -1 || end == -2 { return end, []; }
    if end == OVERFLOW || end > MAX_RESPONSE {
      SetTruncatedOctet(sr, ResponseFlags(sr.flags, err));
      ghost var was := buf[..];
      end := MAX_RESPONSE;
      if buf[2] / 2 % 2 == 0 { buf[2] := buf[2] + 2; }
      assert buf[..12] == was[..12][2 := buf[2]];
    }
    return 0, buf[..end];
  }

  /** Setting the truncated bit changes one octet of the header. */
  lemma SetTruncatedOctet(sr: ServerRequest, flags: u16)
    ensures var h := Header(sr, flags);
            (h[2] / 2 % 2 == 0 ==> h[2] <= 253) &&
            Header(sr, SetTruncated(flags)) == h[2 := if h[2] / 2 % 2 == 0 then h[2] + 2 else h[2]]
  {
  }

  // ------------------------------------------------------------ reading a reply

  method GetFront(p: seq<byte>, j: nat) returns (r: Option<Front>)
    ensures r == ReadFront(p, j)
  {
    var name := NameParse(p, j, 256);
    if name.None? { return None; }
    var e := name.value.1;
    if e + 10 > |p| { return None; }
    return Some(Front(U16(p, e), U16(p, e + 2), U32(p, e + 4), U16(p, e + 8), e + 10));
  }

  method GetQuestions(p: seq<byte>, n: nat, req: Request, exact: bool) returns (r: Option<nat>)
    ensures r == ReadQuestions(p, 12, n, req, exact, false)
  {
    hide Decoded;
    var i: nat, j: nat, matched := 0, 12, false;
    while i < n
      invariant i <= n
      invariant ReadQuestions(p, 12, n, req, exact, false) == ReadQuestions(p, j, n - i, req, exact, matched)
    {
      var a := NameParse(p, j, 256);
      if a.None? { return None; }
      var b := NameParse(req.packet, j, 256);
      if b.None? { return None; }
      matched := matched || SameName(a.value.0, b.value.0, exact);
      j := a.value.1 + 4;
      if j > |p| { return None; }
      i := i + 1;
    }
    r := if matched then Some(j) else None;
  }

  method GetAnswer(p: seq<byte>, f: Front, rep: Reply, req: Request, hostNameMax: nat) returns (step: Step)
    requires |rep.addrs| <= AddrRoom(req.rtype)
    ensures step == ReadAnswer(p, f, rep, req, hostNameMax)
  {
    if (f.rtype == TYPE_A || f.rtype == TYPE_AAAA) && f.rclass == CLASS_INET {
      if req.rtype != f.rtype { return Next(rep, f.data + f.len); }
      return TakeAddresses(p, f, rep);
    } else if f.rtype == TYPE_PTR && f.rclass == CLASS_INET {
      if req.rtype != TYPE_PTR { return Next(rep, f.data + f.len); }
      var name := NameParse(p, f.data, hostNameMax);
      if name.None? { return GiveUp; }
      return Stop(rep.(ptrName := Some(name.value.0), ttl := Min(rep.ttl, f.ttl), haveAnswer := true));
    } else if f.rtype == TYPE_CNAME {
      if !req.cnameWanted || rep.cname.Some? { return Next(rep, f.data + f.len); }
      var name := NameParse(p, f.data, hostNameMax);
      if name.None? { return GiveUp; }
      return Next(rep.(cname := Some(name.value.0)), name.value.1);
    }
    return Next(rep, f.data + f.len);
  }

  method GetAnswers(p: seq<byte>, start: nat, n: nat, req: Request, hostNameMax: nat) returns (step: Step)
    ensures step == ReadAnswers(p, start, n, Reply(false, [], None, None, NO_TTL), req, hostNameMax)
  {
    hide ReadFront, ReadAnswer;
    ghost var first := Reply(false, [], None, None, NO_TTL);
    var i, j, rep := 0, start, Reply(false, [], None, None, NO_TTL);
    while i < n
      invariant i <= n && |rep.addrs| <= AddrRoom(req.rtype)
      invariant ReadAnswers(p, start, n, first, req, hostNameMax) == ReadAnswers(p, j, n - i, rep, req, hostNameMax)
    {
      var f := GetFront(p, j);
      if f.None? { return GiveUp; }
      step := GetAnswer(p, f.value, rep, req, hostNameMax);
      if !step.Next? { return; }
      rep, j, i := step.reply, step.j, i + 1;
    }
    step := Next(rep, j);
  }

  method GetAuthority(p: seq<byte>, start: nat, n: nat, first: u32) returns (r: Option<u32>)
    ensures r == ReadAuthority(p, start, n, first)
  {
    hide ReadFront, Decoded, U16;
    var i: nat, j: nat, ttl: u32 := 0, start, first;
    while i < n
      invariant i <= n
      invariant ReadAuthority(p, start, n, first) == ReadAuthority(p, j, n - i, ttl)
    {
      var front := GetFront(p, j);
      if front.None? { return None; }
      var f := front.value;
      if f.rtype == TYPE_SOA && f.rclass == CLASS_INET {
        var mname := NameParse(p, f.data, 256);
        if mname.None? { return None; }
        var rname := NameParse(p, mname.value.1, 256);
        if rname.None? { return None; }
        var e := rname.value.1;
        if e + 20 > |p| { return None; }
        ttl := Min(ttl, f.ttl);
        ttl := Min(ttl, U32(p, e + 16));
        j := e + 20;
      } else {
        j := f.data + f.len;
      }
      i := i + 1;
    }
    r := Some(ttl);
  }

  /** `reply_parse`, for the request found by the transaction id of the packet. */
  method ReplyParse(p: seq<byte>, req: Option<Request>, exact: bool, hostNameMax: nat) returns (out: Outcome)
    ensures out == Parse(p, req, exact, hostNameMax)
  {
    hide ReadQuestions, ReadAnswers, ReadAuthority;
    if |p| < 12 || req.None? { return Ignored; }
    var flags, questions, answers, authority := U16(p, 2), U16(p, 4), U16(p, 6), U16(p, 8);
    if Bit(flags, 0x8000) == 0 { return Ignored; }
    if Bit(flags, 0x200) == 1 || (flags % 16 != 0 && flags % 16 != 3) { return Handled(flags, 0, None); }
    var j := GetQuestions(p, questions, req.value, exact);
    if j.None? { return Handled(flags, 0, None); }
    var step := GetAnswers(p, j.value, answers, req.value, hostNameMax);
    if step.GiveUp? { return Handled(flags, 0, None); }
    var rep := step.reply;
    if step.Next? && !rep.haveAnswer {
      var ttl := GetAuthority(p, step.j, authority, rep.ttl);
      if ttl.None? { return Handled(flags, 0, None); }
      rep := rep.(ttl := ttl.value);
    }
    return Handled(flags, if rep.ttl == NO_TTL then 0 else rep.ttl, Some(rep));
  }
}
