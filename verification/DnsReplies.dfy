/** More about what clients get: reverse lookups, errors, and which responses are sent whole. */
module DnsReplies {
  import opened Common
  import opened DnsName
  import opened DnsCompression
  import opened DnsMessage
  import opened DnsRoundTrip

  // ------------------------------------------------------------ reverse lookups

  /** The first record of the section that answers a reverse lookup. */
  function FirstPtr(items: seq<Item>): (c: nat)
    ensures c <= |items| && (c < |items| ==> Matches(items[c], TYPE_PTR))
    ensures forall i :: 0 <= i < c ==> !Matches(items[i], TYPE_PTR)
    decreases |items|
  {
    if items == [] || Matches(items[0], TYPE_PTR) then 0 else 1 + FirstPtr(items[1..])
  }

  /** The records up to the one that answers can be read: proper names, and readable targets. */
  predicate PtrProper(items: seq<Item>, req: Request, hostNameMax: nat)
    decreases |items|
  {
    items == [] ||
    (&& Plain(items[0].name)
     && (Matches(items[0], TYPE_PTR) || (items[0].rtype == TYPE_CNAME && req.cnameWanted) ==>
           items[0].data.NameData? && Plain(items[0].data.name) && |items[0].data.name| < hostNameMax)
     && (Matches(items[0], TYPE_PTR) || PtrProper(items[1..], req, hostNameMax)))
  }

  /** The target of the first alias record among the first `n` records. */
  function AliasBefore(items: seq<Item>, n: nat): Option<Name> {
    var a := FirstAlias(items);
    if a < n && a < |items| && items[a].data.NameData? then Some(items[a].data.name) else None
  }

  /** A reverse lookup is answered by the first record that can, and by no other. */
  function PtrAnswer(items: seq<Item>, rep: Reply, req: Request, end: nat): Step {
    var c := FirstPtr(items);
    var named := if req.cnameWanted && rep.cname.None? then rep.(cname := AliasBefore(items, c)) else rep;
    if c < |items| && items[c].data.NameData? then
      Stop(named.(ptrName := Some(items[c].data.name), ttl := Min(rep.ttl, items[c].ttl), haveAnswer := true))
    else Next(named, end)
  }

  lemma AliasRestBefore(items: seq<Item>, n: nat)
    requires items != [] && items[0].rtype != TYPE_CNAME
    ensures AliasBefore(items, n + 1) == AliasBefore(items[1..], n)
  {
  }

  lemma {:induction false} PtrAnswersRead(d: Draft, items: seq<Item>, p: seq<byte>, rep: Reply, req: Request,
                                          hostNameMax: nat)
    requires d.Draft? && TableOk(d.msg, d.table) && |p| < 0x10000 && req.rtype == TYPE_PTR
    requires |rep.addrs| <= AddrRoom(req.rtype) && PtrProper(items, req, hostNameMax)
    requires forall i :: 0 <= i < |items| ==> NulFree(items[i])
    requires FormatItems(d, items).Draft? && FormatItems(d, items).msg <= p
    ensures ReadAnswers(p, |d.msg|, |items|, rep, req, hostNameMax)
         == PtrAnswer(items, rep, req, |FormatItems(d, items).msg|)
    decreases |items|
  {
    hide TableOk, FormatItem, ReadFront, NoNul, Plain, Decoded, DataAt, TakeAddresses;
    if items != [] {
      var item, rest := items[0], items[1..];
      var d' := FormatItem(d, item);
      FormatItemsPrefix(d', rest);
      ItemReads(d, item, p);
      var f := ReadFront(p, |d.msg|).value;
      if Matches(item, TYPE_PTR) {
        CnameRead(p, f, item.data, hostNameMax);
      } else if item.rtype == TYPE_CNAME && req.cnameWanted && rep.cname.None? {
        CnameRead(p, f, item.data, hostNameMax);
        PtrAnswersRead(d', rest, p, rep.(cname := Some(item.data.name)), req, hostNameMax);
      } else {
        if item.rtype != TYPE_CNAME { AliasRestBefore(items, FirstPtr(rest)); }
        PtrAnswersRead(d', rest, p, rep, req, hostNameMax);
      }
    }
  }

  lemma PtrBodyRead(sr: ServerRequest, err: int, msg: seq<byte>, req: Request, name: Name, exact: bool,
                    hostNameMax: nat)
    requires Format(sr, err) == Whole(msg) && Asks(sr, req, name, exact) && req.rtype == TYPE_PTR
    requires PtrProper(sr.answer, req, hostNameMax) && forall i :: 0 <= i < |sr.answer| ==> NulFree(sr.answer[i])
    requires forall i :: 0 <= i < |sr.authority| ==> NulFree(sr.authority[i])
    requires HasMatch(sr.answer, TYPE_PTR) || AuthorityFits(UpToAuthority(sr, err), sr.authority, msg)
    ensures |msg| >= 12 && U16(msg, 2) == ResponseFlags(sr.flags, err)
    ensures var step := PtrAnswer(sr.answer, Reply(false, [], None, None, NO_TTL), req, 0);
            !step.GiveUp? && Body(msg, req, exact, hostNameMax)
            == Some(if step.Stop? then step.reply else step.reply.(ttl := SoaTtl(sr.authority, NO_TTL)))
  {
    hide Format, Header, ResponseFlags, FormatItems, TableOk, PtrProper, NulFree, Plain, NoNul;
    hide ReadAnswers, ReadQuestions, ReadAuthority, U16, AuthorityFits, SoaTtl, AliasBefore;
    var flags := ResponseFlags(sr.flags, err);
    var start := Draft(Header(sr, flags), []);
    var d0 := FormatQuestions(start, sr.questions);
    var d1 := FormatItems(d0, sr.answer);
    var d2 := FormatItems(d1, sr.authority);
    assert sr.questions == [sr.questions[0]];
    FormatSections(sr, err, d0, d1, d2, msg);
    QuestionsPrefix(start, sr.questions[0]);
    QuestionRead(Header(sr, flags), sr.questions[0], msg, req, exact, name, sr.transId, req.rtype);
    SectionOk(d0, sr.answer);
    SectionOk(d1, sr.authority);
    HeaderCounts(sr, flags, msg);
    PtrAnswersRead(d0, sr.answer, msg, Reply(false, [], None, None, NO_TTL), req, hostNameMax);
    FirstPtrNamed(sr.answer, req, hostNameMax);
    if FirstPtr(sr.answer) == |sr.answer| {
      AuthorityRead(d1, sr.authority, msg, NO_TTL);
    }
  }

  lemma {:induction false} FirstPtrNamed(items: seq<Item>, req: Request, hostNameMax: nat)
    requires PtrProper(items, req, hostNameMax)
    ensures FirstPtr(items) < |items| ==> items[FirstPtr(items)].data.NameData?
    ensures FirstPtr(items) < |items| <==> HasMatch(items, TYPE_PTR)
    decreases |items|
  {
    hide Plain;
    if items != [] && !Matches(items[0], TYPE_PTR) { FirstPtrNamed(items[1..], req, hostNameMax); }
    if FirstPtr(items) < |items| { assert Matches(items[FirstPtr(items)], TYPE_PTR); }
  }

  /** The response to a reverse lookup, if it fits in 512 octets, gives the client the name in its first PTR record,
      with the time to live of that record, whatever other records come before it; if there is none, it gives no
      answer, and the time is what the start-of-authority records say. */
  lemma PtrRoundTrip(sr: ServerRequest, err: int, msg: seq<byte>, req: Request, name: Name, exact: bool,
                     hostNameMax: nat)
    requires Format(sr, err) == Whole(msg) && Asks(sr, req, name, exact) && req.rtype == TYPE_PTR
    requires NoError(ResponseFlags(sr.flags, err))
    requires PtrProper(sr.answer, req, hostNameMax) && forall i :: 0 <= i < |sr.answer| ==> NulFree(sr.answer[i])
    requires forall i :: 0 <= i < |sr.authority| ==> NulFree(sr.authority[i])
    requires HasMatch(sr.answer, TYPE_PTR) || AuthorityFits(UpToAuthority(sr, err), sr.authority, msg)
    ensures |msg| >= 12 && |req.packet| >= 12 && U16(msg, 0) == U16(req.packet, 0)
    ensures var out, c := Parse(msg, Some(req), exact, hostNameMax), FirstPtr(sr.answer);
            var ttl := if c < |sr.answer| then sr.answer[c].ttl else SoaTtl(sr.authority, NO_TTL);
            && out.Handled? && out.flags == ResponseFlags(sr.flags, err)
            && out.ttl == (if ttl == NO_TTL then 0 else ttl)
            && out.reply.Some? && out.reply.value.haveAnswer == HasMatch(sr.answer, TYPE_PTR)
            && out.reply.value.addrs == []
            && if c < |sr.answer| then
                 sr.answer[c].data.NameData? && out.reply.value.ptrName == Some(sr.answer[c].data.name)
               else out.reply.value.ptrName.None?
  {
    hide Format, ResponseFlags, PtrProper, Asks, NulFree, Body, U16, Bit, AuthorityFits, UpToAuthority, SoaTtl;
    FlagsAnswer(sr.flags, err);
    SameId(sr, err, msg, req, name, exact);
    PtrBodyRead(sr, err, msg, req, name, exact, hostNameMax);
    FirstPtrNamed(sr.answer, req, hostNameMax);
  }

  // ------------------------------------------------------------ errors

  /** A response with an error code other than that of a missing name gives the client that code, and nothing else of it
      is read. */
  lemma ErrorReported(sr: ServerRequest, err: int, msg: seq<byte>, req: Request, exact: bool, hostNameMax: nat)
    requires Format(sr, err) == Whole(msg) && err !in {0, 3} && sr.flags % 16 == 0
    ensures var out := Parse(msg, Some(req), exact, hostNameMax);
            out.Handled? && out.flags % 16 == err && out.ttl == 0 && out.reply.None?
  {
    hide U16, Or4;
    ResponseHeader(sr, err);
    FlagParts(sr.flags, err);
    NoOr(err);
    hide Format, ResponseFlags;
    FlagsAnswer(sr.flags, err);
  }

  lemma NoOr(err: int)
    requires 0 <= err < 16
    ensures Or4(0, err) == err
  {
    Nibble(err);
    assert Bit(0, 8) == 0 && Bit(0, 4) == 0 && Bit(0, 2) == 0 && Bit(0, 1) == 0;
    hide Bit;
  }

  lemma Nibble(x: int)
    requires 0 <= x < 16
    ensures 0 <= Bit(x, 8) < 2 && 0 <= Bit(x, 4) < 2 && 0 <= Bit(x, 2) < 2 && 0 <= Bit(x, 1) < 2
    ensures x == 8 * Bit(x, 8) + 4 * Bit(x, 4) + 2 * Bit(x, 2) + Bit(x, 1)
  {
    var a := x / 2;
    var b := a / 2;
    assert x / 4 == b;
    assert x / 8 == b / 2;
    assert Bit(x, 8) == b / 2 && Bit(x, 4) == b % 2 && Bit(x, 2) == a % 2 && Bit(x, 1) == x % 2;
  }

  /** A query that comes back to the client is not taken for an answer. */
  lemma QueryIgnored(name: Name, packet: seq<byte>, transId: u16, qtype: u16, req: Option<Request>, exact: bool,
                     hostNameMax: nat)
    requires NoNul(name) && Plain(name) && BuildRequest(name, transId, qtype) == Some(packet)
    ensures Parse(packet, req, exact, hostNameMax) == Ignored
  {
    hide U16, BuildRequest, NoNul, Plain;
    QueryRead(name, packet, transId, qtype);
  }

  // ------------------------------------------------------------ which responses are sent whole

  function QuestionsRoom(qs: seq<Question>): nat
    decreases |qs|
  {
    if qs == [] then 0 else |qs[0].name| + 2 + 4 + QuestionsRoom(qs[1..])
  }

  function ItemRoom(item: Item): nat {
    |item.name| + 2 + 10 + match item.data case NameData(name) => |name| + 2 case RawData(octets) => |octets|
  }

  function ItemsRoom(items: seq<Item>): nat
    decreases |items|
  {
    if items == [] then 0 else ItemRoom(items[0]) + ItemsRoom(items[1..])
  }

  predicate ItemEncodable(item: Item) {
    Encodable(item.name) && (item.data.NameData? ==> Encodable(item.data.name))
  }

  lemma {:induction false} QuestionsFit(d: Draft, qs: seq<Question>)
    requires d.Draft? && |d.msg| + QuestionsRoom(qs) <= BUF_LEN
    requires forall i :: 0 <= i < |qs| ==> Encodable(qs[i].name)
    ensures FormatQuestions(d, qs).Draft? && |FormatQuestions(d, qs).msg| <= |d.msg| + QuestionsRoom(qs)
    decreases |qs|
  {
    hide Encode, Encodable;
    if qs != [] {
      EncodeWorks(|d.msg|, BUF_LEN, qs[0].name, d.table, MAX_LABELS);
      var e := Encode(|d.msg|, BUF_LEN, qs[0].name, d.table, MAX_LABELS);
      var d' := Draft(d.msg + e.bytes + (Be16(qs[0].qtype) + Be16(qs[0].qclass)), e.table);
      QuestionsFit(d', qs[1..]);
    }
  }

  lemma ItemFits(d: Draft, item: Item)
    requires d.Draft? && |d.msg| + ItemRoom(item) <= BUF_LEN && ItemEncodable(item)
    ensures FormatItem(d, item).Draft? && |FormatItem(d, item).msg| <= |d.msg| + ItemRoom(item)
  {
    hide Encode, Encodable, Fixed;
    EncodeWorks(|d.msg|, BUF_LEN, item.name, d.table, MAX_LABELS);
    var e := Encode(|d.msg|, BUF_LEN, item.name, d.table, MAX_LABELS);
    var msg := d.msg + e.bytes + Fixed(item);
    if item.data.NameData? { EncodeWorks(|msg| + 2, BUF_LEN, item.data.name, e.table, MAX_LABELS); }
  }

  lemma {:induction false} ItemsFit(d: Draft, items: seq<Item>)
    requires d.Draft? && |d.msg| + ItemsRoom(items) <= BUF_LEN
    requires forall i :: 0 <= i < |items| ==> ItemEncodable(items[i])
    ensures FormatItems(d, items).Draft? && |FormatItems(d, items).msg| <= |d.msg| + ItemsRoom(items)
    decreases |items|
  {
    hide FormatItem, ItemRoom, ItemEncodable;
    if items != [] {
      ItemFits(d, items[0]);
      ItemsFit(FormatItem(d, items[0]), items[1..]);
    }
  }

  /** A response whose records would fit in 512 octets without any compression is sent whole; and no response that is
      sent whole is longer. */
  lemma SentWhole(sr: ServerRequest, err: int)
    requires 0 <= err <= 15
    requires forall i :: 0 <= i < |sr.questions| ==> Encodable(sr.questions[i].name)
    requires forall i :: 0 <= i < |sr.answer| ==> ItemEncodable(sr.answer[i])
    requires forall i :: 0 <= i < |sr.authority| ==> ItemEncodable(sr.authority[i])
    requires forall i :: 0 <= i < |sr.additional| ==> ItemEncodable(sr.additional[i])
    requires 12 + QuestionsRoom(sr.questions) + ItemsRoom(sr.answer) + ItemsRoom(sr.authority)
             + ItemsRoom(sr.additional) <= 512
    ensures Format(sr, err).Whole? && |Format(sr, err).msg| <= 512
  {
    hide FormatQuestions, FormatItems, Header, ResponseFlags, ItemEncodable, Encodable, QuestionsRoom, ItemsRoom;
    var start := Draft(Header(sr, ResponseFlags(sr.flags, err)), []);
    QuestionsFit(start, sr.questions);
    var d0 := FormatQuestions(start, sr.questions);
    ItemsFit(d0, sr.answer);
    var d1 := FormatItems(d0, sr.answer);
    ItemsFit(d1, sr.authority);
    ItemsFit(FormatItems(d1, sr.authority), sr.additional);
  }

  // ------------------------------------------------------------ records for the name that was asked for

  lemma EncodeTable(j: nat, cap: nat, name: Name, table: Table, v: Name)
    requires Encode(j, cap, name, table, MAX_LABELS).Encoded? && TableGet(table, v) >= 0
    ensures TableGet(Encode(j, cap, name, table, MAX_LABELS).table, v) == TableGet(table, v)
  {
    hide Encode, TableGet;
    EncodeGrows(j, cap, name, table);
    var t := Encode(j, cap, name, table, MAX_LABELS).table;
    FoundStays(table, t[|table|..], v);
  }

  lemma ItemTable(d: Draft, item: Item, v: Name)
    requires d.Draft? && FormatItem(d, item).Draft? && TableGet(d.table, v) >= 0
    ensures TableGet(FormatItem(d, item).table, v) == TableGet(d.table, v)
  {
    hide Encode, TableGet, Fixed;
    EncodeTable(|d.msg|, BUF_LEN, item.name, d.table, v);
    var e := Encode(|d.msg|, BUF_LEN, item.name, d.table, MAX_LABELS);
    var msg := d.msg + e.bytes + Fixed(item);
    if item.data.NameData? { EncodeTable(|msg| + 2, BUF_LEN, item.data.name, e.table, v); }
  }

  lemma {:induction false} ItemsTable(d: Draft, items: seq<Item>, v: Name)
    requires d.Draft? && FormatItems(d, items).Draft? && TableGet(d.table, v) >= 0
    ensures TableGet(FormatItems(d, items).table, v) == TableGet(d.table, v)
    decreases |items|
  {
    hide FormatItem, TableGet;
    if items != [] {
      FormatItemsPrefix(FormatItem(d, items[0]), items[1..]);
      ItemTable(d, items[0], v);
      ItemsTable(FormatItem(d, items[0]), items[1..], v);
    }
  }

  /** The name of the question is noted at offset 12. */
  lemma QuestionNoted(header: seq<byte>, q: Question)
    requires |header| == 12 && FormatQuestions(Draft(header, []), [q]).Draft?
    ensures TableGet(FormatQuestions(Draft(header, []), [q]).table, q.name) == 12
  {
    hide Labelled, TableGet, FirstDot;
    assert [q][1..] == [];
    EmptyTable(q.name);
    LabelledCases(12, BUF_LEN, q.name, [], MAX_LABELS);
    FoundLast([], q.name, 12);
    var d, one := FirstDot(q.name), [] + [Entry(q.name, 12)];
    assert TableAdd([], q.name, 12, MAX_LABELS) == one;
    if d < |q.name| {
      LabelledGrows(12 + d + 1, BUF_LEN, q.name[d + 1..], one, MAX_LABELS);
      var t := Labelled(12 + d + 1, BUF_LEN, q.name[d + 1..], one, MAX_LABELS).table;
      FoundStays(one, t[|one|..], q.name);
    }
  }

  /** A section is written up to a record, and then on. */
  lemma {:induction false} ItemsSplit(d: Draft, items: seq<Item>, i: nat)
    requires FormatItems(d, items).Draft? && i <= |items|
    ensures FormatItems(d, items) == FormatItems(FormatItems(d, items[..i]), items[i..])
    decreases i
  {
    hide FormatItem;
    FormatItemsPrefix(d, items);
    if i == 0 {
      assert items[..0] == [] && items[0..] == items;
    } else {
      assert items[..i][1..] == items[1..][..i - 1] && items[i..] == items[1..][i - 1..];
      ItemsSplit(FormatItem(d, items[0]), items[1..], i - 1);
    }
  }

  lemma ItemPointer(d: Draft, item: Item, ref: nat)
    requires d.Draft? && FormatItem(d, item).Draft? && TableGet(d.table, item.name) == ref
    ensures |d.msg| + 2 <= |FormatItem(d, item).msg|
            && FormatItem(d, item).msg[|d.msg|..|d.msg| + 2] == Pointer(ref)
  {
    hide Labelled, TableGet, Fixed, FormatData, Pointer;
    LabelledCases(|d.msg|, BUF_LEN, item.name, d.table, MAX_LABELS);
    FormatDataGrows(d.msg + Pointer(ref) + Fixed(item), d.table, item.data);
  }

  /** The message up to the `i`-th record of its answer section. */
  function UpToAnswer(sr: ServerRequest, err: int, i: nat): Draft
    requires i <= |sr.answer|
  {
    FormatItems(FormatQuestions(Draft(Header(sr, ResponseFlags(sr.flags, err)), []), sr.questions), sr.answer[..i])
  }

  /** In a response to one question, a record for the name that was asked for starts with a pointer to the question. */
  lemma OwnerPointer(sr: ServerRequest, err: int, msg: seq<byte>, i: nat)
    requires Format(sr, err) == Whole(msg) && |sr.questions| == 1 && i < |sr.answer|
    requires sr.answer[i].name == sr.questions[0].name
    ensures var d := UpToAnswer(sr, err, i);
            d.Draft? && |d.msg| + 2 <= |msg| && msg[|d.msg|..|d.msg| + 2] == [0xc0, 12]
  {
    hide Format, Header, FormatQuestions, FormatItem, TableGet, ResponseFlags, FormatItems;
    var flags := ResponseFlags(sr.flags, err);
    var d0 := FormatQuestions(Draft(Header(sr, flags), []), sr.questions);
    var d1 := FormatItems(d0, sr.answer);
    FormatSections(sr, err, d0, d1, FormatItems(d1, sr.authority), msg);
    assert sr.questions == [sr.questions[0]];
    QuestionNoted(Header(sr, flags), sr.questions[0]);
    ItemsSplit(d0, sr.answer, i);
    var d, item := FormatItems(d0, sr.answer[..i]), sr.answer[i];
    FormatItemsPrefix(d, sr.answer[i..]);
    ItemsTable(d0, sr.answer[..i], item.name);
    assert sr.answer[i..][0] == item;
    FormatItemsCons(d, sr.answer[i..]);
    var d' := FormatItem(d, item);
    FormatItemsPrefix(d', sr.answer[i..][1..]);
    ItemPointer(d, item, 12);
    assert msg[|d.msg|..|d.msg| + 2] == d'.msg[|d.msg|..|d.msg| + 2];
    assert Pointer(12) == [0xc0, 12];
  }

  lemma FormatItemsCons(d: Draft, items: seq<Item>)
    requires d.Draft? && items != []
    ensures FormatItems(d, items) == FormatItems(FormatItem(d, items[0]), items[1..])
  {
    hide FormatItem;
  }

  // ------------------------------------------------------------ whole messages

  /** The questions stand in the packet from `start` to `end`, one after the other. */
  ghost predicate QuestionsAt(p: seq<byte>, start: nat, qs: seq<Question>, end: nat)
    decreases |qs|
  {
    if qs == [] then start == end
    else
      var r := Decoded(p, start, 256);
      && r.Some? && r.value.0 == qs[0].name && r.value.1 + 4 <= |p|
      && U16(p, r.value.1) == qs[0].qtype && U16(p, r.value.1 + 2) == qs[0].qclass
      && QuestionsAt(p, r.value.1 + 4, qs[1..], end)
  }

  /** The records stand in the packet from `start` to `end`, one after the other. */
  ghost predicate RecordsAt(p: seq<byte>, start: nat, items: seq<Item>, end: nat)
    decreases |items|
  {
    if items == [] then start == end
    else
      var r := ReadFront(p, start);
      && r.Some? && RecordAt(p, start, r.value.data + r.value.len, items[0])
      && RecordsAt(p, r.value.data + r.value.len, items[1..], end)
  }

  predicate PlainItem(item: Item) {
    NulFree(item) && Plain(item.name)
  }

  lemma {:induction false} QuestionsRead(d: Draft, qs: seq<Question>, p: seq<byte>)
    requires d.Draft? && TableOk(d.msg, d.table)
    requires forall i :: 0 <= i < |qs| ==> NoNul(qs[i].name) && Plain(qs[i].name)
    requires FormatQuestions(d, qs).Draft? && FormatQuestions(d, qs).msg <= p
    ensures QuestionsAt(p, |d.msg|, qs, |FormatQuestions(d, qs).msg|)
    ensures TableOk(FormatQuestions(d, qs).msg, FormatQuestions(d, qs).table)
    decreases |qs|
  {
    hide Encode, TableOk, NoNul, Plain, Decoded, U16;
    if qs != [] {
      var e := Encode(|d.msg|, BUF_LEN, qs[0].name, d.table, MAX_LABELS);
      var named := d.msg + e.bytes;
      var d' := Draft(named + (Be16(qs[0].qtype) + Be16(qs[0].qclass)), e.table);
      FormatQuestionsPrefix(d', qs[1..]);
      EncodedNameReads(d.msg, BUF_LEN, qs[0].name, d.table, MAX_LABELS, p);
      EncodeFits(|d.msg|, BUF_LEN, qs[0].name, d.table, MAX_LABELS);
      TableOkExtend(named, Be16(qs[0].qtype) + Be16(qs[0].qclass), e.table);
      TypeReads(named, qs[0].qtype, qs[0].qclass, p);
      QuestionsRead(d', qs[1..], p);
    }
  }

  lemma {:induction false} ItemsRead(d: Draft, items: seq<Item>, p: seq<byte>)
    requires d.Draft? && TableOk(d.msg, d.table) && |p| < 0x10000
    requires forall i :: 0 <= i < |items| ==> PlainItem(items[i])
    requires FormatItems(d, items).Draft? && FormatItems(d, items).msg <= p
    ensures RecordsAt(p, |d.msg|, items, |FormatItems(d, items).msg|)
    ensures TableOk(FormatItems(d, items).msg, FormatItems(d, items).table)
    decreases |items|
  {
    hide TableOk, FormatItem, NulFree, Plain, ReadFront, DataAt;
    if items != [] {
      var d' := FormatItem(d, items[0]);
      FormatItemsPrefix(d', items[1..]);
      assert PlainItem(items[0]);
      ItemReads(d, items[0], p);
      ItemsRead(d', items[1..], p);
    }
  }

  /** A response that is sent whole is its header, then its questions, then the records of its three sections, each
      where the one before ends, up to the end of the message, and nothing else. */
  lemma MessageReads(sr: ServerRequest, err: int, msg: seq<byte>)
    requires Format(sr, err) == Whole(msg)
    requires forall i :: 0 <= i < |sr.questions| ==> NoNul(sr.questions[i].name) && Plain(sr.questions[i].name)
    requires forall i :: 0 <= i < |sr.answer| ==> PlainItem(sr.answer[i])
    requires forall i :: 0 <= i < |sr.authority| ==> PlainItem(sr.authority[i])
    requires forall i :: 0 <= i < |sr.additional| ==> PlainItem(sr.additional[i])
    ensures HeaderIs(msg, sr, ResponseFlags(sr.flags, err))
    ensures exists e0, e1, e2 :: QuestionsAt(msg, 12, sr.questions, e0) && RecordsAt(msg, e0, sr.answer, e1)
              && RecordsAt(msg, e1, sr.authority, e2) && RecordsAt(msg, e2, sr.additional, |msg|)
  {
    hide Format, Header, FormatQuestions, FormatItems, ResponseFlags, TableOk, HeaderIs;
    hide NoNul, Plain, PlainItem, QuestionsAt, RecordsAt;
    ResponseHeader(sr, err);
    var start := Draft(Header(sr, ResponseFlags(sr.flags, err)), []);
    var d0 := FormatQuestions(start, sr.questions);
    var d1 := FormatItems(d0, sr.answer);
    var d2 := FormatItems(d1, sr.authority);
    FormatSections(sr, err, d0, d1, d2, msg);
    WholeIs(sr, err, msg, d2);
    NoEntries(start.msg);
    QuestionsRead(start, sr.questions, msg);
    ItemsRead(d0, sr.answer, msg);
    ItemsRead(d1, sr.authority, msg);
    ItemsRead(d2, sr.additional, msg);
    assert QuestionsAt(msg, 12, sr.questions, |d0.msg|) && RecordsAt(msg, |d0.msg|, sr.answer, |d1.msg|);
  }

  lemma WholeIs(sr: ServerRequest, err: int, msg: seq<byte>, d2: Draft)
    requires Format(sr, err) == Whole(msg)
    requires d2 == FormatItems(FormatItems(FormatQuestions(Draft(Header(sr, ResponseFlags(sr.flags, err)), []),
                                                          sr.questions), sr.answer), sr.authority)
    ensures FormatItems(d2, sr.additional).Draft? && FormatItems(d2, sr.additional).msg == msg && |msg| <= MAX_RESPONSE
  {
    hide Header, FormatQuestions, FormatItems, ResponseFlags;
  }

  // ------------------------------------------------------------ what is not accepted

  /** A response about another name than the one that was asked for is not read. */
  lemma WrongNameRejected(sr: ServerRequest, err: int, msg: seq<byte>, req: Request, name: Name, exact: bool,
                          hostNameMax: nat)
    requires Format(sr, err) == Whole(msg) && |sr.questions| == 1
    requires NoNul(name) && Plain(name) && BuildRequest(name, sr.transId, req.rtype) == Some(req.packet)
    requires NoNul(sr.questions[0].name) && Plain(sr.questions[0].name) && !SameName(sr.questions[0].name, name, exact)
    ensures Parse(msg, Some(req), exact, hostNameMax) == Handled(ResponseFlags(sr.flags, err), 0, None)
  {
    hide Format, Header, ResponseFlags, FormatItems, FormatQuestions, TableOk;
    hide Plain, NoNul, U16, SameName, Bit, Decoded;
    var flags := ResponseFlags(sr.flags, err);
    var start := Draft(Header(sr, flags), []);
    var d0 := FormatQuestions(start, sr.questions);
    var d1 := FormatItems(d0, sr.answer);
    FormatSections(sr, err, d0, d1, FormatItems(d1, sr.authority), msg);
    ResponseHeader(sr, err);
    FlagsAnswer(sr.flags, err);
    NoEntries(start.msg);
    QuestionsRead(start, sr.questions, msg);
    QueryRead(name, req.packet, sr.transId, req.rtype);
    var e := Decoded(msg, 12, 256).value.1;
    assert ReadQuestions(msg, e + 4, 0, req, exact, false).None?;
    assert ReadQuestions(msg, 12, 1, req, exact, false).None?;
  }

  /** Some records are read, and then the others. */
  lemma {:induction false} ReadAnswersSplit(p: seq<byte>, j: nat, n: nat, more: nat, rep: Reply, req: Request,
                                            hostNameMax: nat)
    requires |rep.addrs| <= AddrRoom(req.rtype)
    ensures ReadAnswers(p, j, n + more, rep, req, hostNameMax) ==
            match ReadAnswers(p, j, n, rep, req, hostNameMax)
            case Next(rep', j') => ReadAnswers(p, j', more, rep', req, hostNameMax)
            case step => step
    decreases n
  {
    hide ReadFront, ReadAnswer;
    if n > 0 {
      match ReadFront(p, j) {
        case Some(f) =>
          match ReadAnswer(p, f, rep, req, hostNameMax) {
            case Next(rep', j') => ReadAnswersSplit(p, j', n - 1, more, rep', req, hostNameMax);
            case _ =>
          }
        case None =>
      }
    }
  }

  /** A record of the type that was asked for whose data is not a whole number of addresses is not passed over: nothing
      of the response is used, whatever was read before it. */
  lemma PartialAddressRejected(sr: ServerRequest, err: int, msg: seq<byte>, req: Request, name: Name, exact: bool,
                               hostNameMax: nat, i: nat)
    requires Format(sr, err) == Whole(msg) && Asks(sr, req, name, exact) && i < |sr.answer|
    requires (req.rtype == TYPE_A || req.rtype == TYPE_AAAA) && Matches(sr.answer[i], req.rtype)
    requires sr.answer[i].data.RawData? && |sr.answer[i].data.octets| % Width(req.rtype) != 0
    requires ReadProper(sr.answer[..i], 0, req, hostNameMax) && Plain(sr.answer[i].name)
    requires |Addresses(sr.answer[..i], req.rtype)| < AddrRoom(req.rtype)
    requires forall k :: 0 <= k < |sr.answer| ==> NulFree(sr.answer[k])
    requires forall k :: 0 <= k < |sr.authority| ==> NulFree(sr.authority[k])
    ensures Parse(msg, Some(req), exact, hostNameMax) == Handled(ResponseFlags(sr.flags, err), 0, None)
  {
    hide Format, Header, ResponseFlags, FormatItems, TableOk, NulFree, Plain, NoNul, U16, Bit, Collect, Addresses;
    hide ReadAnswers, ReadQuestions, ReadAuthority, ReadProper, Matches, Width, AddrRoom, LeastTtl;
    var flags := ResponseFlags(sr.flags, err);
    var start := Draft(Header(sr, flags), []);
    var d0 := FormatQuestions(start, sr.questions);
    var d1 := FormatItems(d0, sr.answer);
    var d2 := FormatItems(d1, sr.authority);
    assert sr.questions == [sr.questions[0]];
    FormatSections(sr, err, d0, d1, d2, msg);
    FlagsAnswer(sr.flags, err);
    QuestionsPrefix(start, sr.questions[0]);
    QuestionRead(Header(sr, flags), sr.questions[0], msg, req, exact, name, sr.transId, req.rtype);
    SectionOk(d0, sr.answer);
    SectionOk(d1, sr.authority);
    HeaderCounts(sr, flags, msg);
    AnswersGiveUp(d0, sr.answer, msg, req, hostNameMax, i);
  }

  lemma RoomThere(rtype: int)
    ensures AddrRoom(rtype) > 0
  {
  }

  lemma AnswersGiveUp(d: Draft, items: seq<Item>, p: seq<byte>, req: Request, hostNameMax: nat, i: nat)
    requires d.Draft? && TableOk(d.msg, d.table) && |p| < 0x10000 && i < |items|
    requires (req.rtype == TYPE_A || req.rtype == TYPE_AAAA) && Matches(items[i], req.rtype)
    requires items[i].data.RawData? && |items[i].data.octets| % Width(req.rtype) != 0 && Plain(items[i].name)
    requires ReadProper(items[..i], 0, req, hostNameMax)
    requires |Addresses(items[..i], req.rtype)| < AddrRoom(req.rtype)
    requires forall k :: 0 <= k < |items| ==> NulFree(items[k])
    requires FormatItems(d, items).Draft? && FormatItems(d, items).msg <= p
    ensures ReadAnswers(p, |d.msg|, |items|, Reply(false, [], None, None, NO_TTL), req, hostNameMax).GiveUp?
  {
    hide FormatItems, FormatItem, TableOk, NulFree, Plain, Collect, Addresses, ReadProper, LeastTtl, AddrRoom, Width;
    hide ReadFront, DataAt, ReadAnswer;
    var rep := Reply(false, [], None, None, NO_TTL);
    RoomThere(req.rtype);
    ItemsSplit(d, items, i);
    var before, rest := FormatItems(d, items[..i]), items[i..];
    FormatItemsPrefix(before, rest);
    FormatItemsPrefix(d, items[..i]);
    AnswersRead(d, items[..i], p, rep, req, hostNameMax);
    CollectClosed(items[..i], rep, req, hostNameMax);
    NotFull(items[..i], rep, req, hostNameMax);
    SectionOk(d, items[..i]);
    ReadAnswersSplit(p, |d.msg|, i, |items| - i, rep, req, hostNameMax);
    assert rest[0] == items[i];
    FormatItemsCons(before, rest);
    FormatItemsPrefix(FormatItem(before, items[i]), rest[1..]);
    ItemReads(before, items[i], p);
    var rep' := Collect(items[..i], rep, req, hostNameMax).0;
    var f := ReadFront(p, |before.msg|).value;
    AddressGivesUp(p, f, rep', req, hostNameMax, items[i]);
  }

  lemma AddressGivesUp(p: seq<byte>, f: Front, rep: Reply, req: Request, hostNameMax: nat, item: Item)
    requires |rep.addrs| <= AddrRoom(req.rtype) && (req.rtype == TYPE_A || req.rtype == TYPE_AAAA)
    requires Matches(item, req.rtype) && f.rtype == item.rtype && f.rclass == item.rclass && DataAt(p, f, item.data)
    requires item.data.RawData? && |item.data.octets| % Width(req.rtype) != 0
    ensures ReadAnswer(p, f, rep, req, hostNameMax).GiveUp?
  {
    hide Width, Decoded;
  }

  /** Reading stops early only when the reply is full. */
  lemma {:induction false} NotFull(items: seq<Item>, rep: Reply, req: Request, hostNameMax: nat)
    requires |rep.addrs| < AddrRoom(req.rtype) && ReadProper(items, |rep.addrs|, req, hostNameMax)
    requires |rep.addrs| + |Addresses(items, req.rtype)| < AddrRoom(req.rtype)
    ensures !Collect(items, rep, req, hostNameMax).1
    decreases |items|
  {
    hide Width, AddrRoom, NulFree, Plain;
    if items != [] {
      var item, rest, room := items[0], items[1..], AddrRoom(req.rtype);
      assert Proper(item, req, hostNameMax);
      if Matches(item, req.rtype) {
        NotFull(rest, Gather(rep, item, room), req, hostNameMax);
      } else if item.rtype == TYPE_CNAME && req.cnameWanted && rep.cname.None? {
        NotFull(rest, rep.(cname := Some(item.data.name)), req, hostNameMax);
      } else {
        NotFull(rest, rep, req, hostNameMax);
      }
    }
  }

  // ------------------------------------------------------------ names that cannot be asked for

  /** A query is built exactly for the names that the wire format can carry. */
  lemma RequestBuilt(name: Name, transId: u16, qtype: u16)
    ensures BuildRequest(name, transId, qtype).Some? <==> Encodable(name)
  {
    hide Encode, Encodable;
    var cap := 96 + |name| + 2 + 4;
    EncodesExactly(12, cap, name, 0);
    if Encodable(name) { EncodeWorks(12, cap, name, [], 0); }
  }

  /** A response to a question whose name is too long, or has a label that is, is refused. */
  lemma RefusesBadName(sr: ServerRequest, err: int)
    requires 0 <= err <= 15 && sr.questions != [] && !Encodable(sr.questions[0].name)
    ensures Format(sr, err) == Refused(if |sr.questions[0].name| > 255 then -2 else -1)
  {
    hide Labelled, Header, ResponseFlags, FormatItem;
    var q, start := sr.questions[0], Draft(Header(sr, ResponseFlags(sr.flags, err)), []);
    if |q.name| <= 255 { LabelledTooLong(12, BUF_LEN, q.name, [], MAX_LABELS); }
    assert FormatQuestions(start, sr.questions) == Failed(if |q.name| > 255 then -2 else -1);
  }
}
