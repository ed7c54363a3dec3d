/**
 The tagged records of libevent/event_tagging.c: a tag in groups of seven bits, a length in nibbles, and data.
 Both kinds of number have their least significant group first, whatever the comment on the format says.
 */
module Tagging {
  import opened Common

  const TWO_31: nat := 0x8000_0000
  const TWO_32: nat := 0x1_0000_0000
  const TWO_64: nat := 0x1_0000_0000_0000_0000

  // ------------------------------------------------------------ integers by nibbles

  /** The nibbles of a number, least significant first; none for 0. */
  function NibblesOf(n: nat): (ns: seq<nat>)
    ensures forall i :: 0 <= i < |ns| ==> ns[i] < 16
  {
    if n == 0 then [] else [n % 16] + NibblesOf(n / 16)
  }

  function Power16(k: nat): (p: nat)
    ensures p > 0
  {
    if k == 0 then 1 else 16 * Power16(k - 1)
  }

  lemma {:induction false} NibbleCount(n: nat, k: nat)
    requires n < Power16(k)
    ensures |NibblesOf(n)| <= k
  {
    if n != 0 && k > 0 { NibbleCount(n / 16, k - 1); }
  }

  /** Two nibbles to an octet, the first one high; a last one alone is padded. */
  function Pack(ns: seq<nat>): (s: seq<byte>)
    requires forall i :: 0 <= i < |ns| ==> ns[i] < 16
    ensures |s| == (|ns| + 1) / 2
  {
    if ns == [] then [] else if |ns| == 1 then [(ns[0] * 16) as byte]
    else [(ns[0] * 16 + ns[1]) as byte] + Pack(ns[2..])
  }

  function NibbleAt(s: seq<byte>, p: nat): (r: nat)
    requires p / 2 < |s|
    ensures r < 16
  {
    if p % 2 == 0 then s[p / 2] as int / 16 else s[p / 2] as int % 16
  }

  lemma {:induction false} PackedAt(ns: seq<nat>, rest: seq<byte>, p: nat)
    requires forall i :: 0 <= i < |ns| ==> ns[i] < 16
    requires p < 2 * |Pack(ns)|
    ensures NibbleAt(Pack(ns) + rest, p) == if p < |ns| then ns[p] else 0
  {
    if |ns| > 1 && p >= 2 {
      PackedAt(ns[2..], rest, p - 2);
      assert Pack(ns) + rest == [(ns[0] * 16 + ns[1]) as byte] + (Pack(ns[2..]) + rest);
      assert (p - 2) / 2 == p / 2 - 1;
    }
  }

  /** The first nibble says how many follow, less one. */
  function IntNibbles(n: nat): (ns: seq<nat>)
    requires |NibblesOf(n)| <= 16
    ensures forall i :: 0 <= i < |ns| ==> ns[i] < 16
  {
    var m := |NibblesOf(n)|;
    [if m == 0 then 0 else m - 1] + NibblesOf(n)
  }

  /** ENCODE_INT_INTERNAL. */
  function EncodeInt(n: nat): (s: seq<byte>)
    requires |NibblesOf(n)| <= 16
    ensures 1 <= |s| <= 9
  {
    Pack(IntNibbles(n))
  }

  /** The value of `k` nibbles from the `p`th on. */
  function Digits(s: seq<byte>, p: nat, k: nat): nat
    requires k > 0 ==> (p + k - 1) / 2 < |s|
    decreases k
  {
    if k == 0 then 0 else NibbleAt(s, p) + 16 * Digits(s, p + 1, k - 1)
  }

  /** DECODE_INT_INTERNAL, at the start of `s`: the number, and how many octets it takes. */
  function DecodeInt(s: seq<byte>, maxNibbles: nat): (r: Option<(nat, nat)>)
    ensures r.Some? ==> 1 <= r.value.1 <= |s|
  {
    if s == [] then None
    else
      var nibbles := s[0] as int / 16 + 1;
      if nibbles > maxNibbles || nibbles / 2 + 1 > |s| then None
      else Some((Digits(s, 1, nibbles), nibbles / 2 + 1))
  }

  lemma {:induction false} DigitsPacked(s: seq<byte>, p: nat, n: nat)
    requires var ns := NibblesOf(n);
             ns != [] ==> (p + |ns| - 1) / 2 < |s| && forall i :: 0 <= i < |ns| ==> NibbleAt(s, p + i) == ns[i]
    ensures Digits(s, p, |NibblesOf(n)|) == n
    decreases n
  {
    hide NibbleAt;
    var ns := NibblesOf(n);
    if n != 0 {
      assert ns[1..] == NibblesOf(n / 16);
      assert NibbleAt(s, p + 0) == ns[0];
      forall i | 0 <= i < |ns| - 1 ensures NibbleAt(s, p + 1 + i) == NibblesOf(n / 16)[i] {
        assert NibbleAt(s, p + (i + 1)) == ns[i + 1];
      }
      DigitsPacked(s, p + 1, n / 16);
    }
  }

  /** The digits behind the first nibble are the number. */
  lemma DigitsRead(n: nat, rest: seq<byte>)
    requires |NibblesOf(n)| <= 16
    ensures var s, m := EncodeInt(n) + rest, |NibblesOf(n)|;
            && s[0] as int / 16 == (if m == 0 then 0 else m - 1)
            && (m > 0 ==> m / 2 < |s| && Digits(s, 1, m) == n) && (m == 0 ==> Digits(s, 1, 1) == 0)
  {
    hide Pack, NibblesOf;
    var ns, s := IntNibbles(n), EncodeInt(n) + rest;
    PackedAt(ns, rest, 0);
    assert s[0] as int / 16 == NibbleAt(s, 0);
    if |NibblesOf(n)| == 0 {
      PackedAt(ns, rest, 1);
      assert Digits(s, 1, 1) == NibbleAt(s, 1) + 16 * Digits(s, 2, 0);
    } else {
      hide NibbleAt, Digits;
      forall i | 0 <= i < |NibblesOf(n)| ensures NibbleAt(s, 1 + i) == NibblesOf(n)[i] {
        PackedAt(ns, rest, 1 + i);
        assert ns[1 + i] == NibblesOf(n)[i];
      }
      DigitsPacked(s, 1, n);
    }
  }

  /** A number is read back, whatever follows it. */
  lemma IntRoundTrip(n: nat, maxNibbles: nat, rest: seq<byte>)
    requires |NibblesOf(n)| <= maxNibbles && 1 <= maxNibbles <= 16
    ensures DecodeInt(EncodeInt(n) + rest, maxNibbles) == Some((n, |EncodeInt(n)|))
  {
    DigitsRead(n, rest);
    NoNibbles(n);
    hide Pack, NibblesOf, Digits, NibbleAt;
  }

  lemma NoNibbles(n: nat)
    ensures |NibblesOf(n)| == 0 <==> n == 0
  {
  }

  /** No more nibbles than the number needs. */
  lemma {:induction false} NibblesNeeded(n: nat)
    ensures var m := |NibblesOf(n)|; n < Power16(m) && (m > 0 ==> Power16(m - 1) <= n)
    decreases n
  {
    if n != 0 { NibblesNeeded(n / 16); }
  }

  /** What a number looks like: its first nibble is one less than the number of the nibbles that it needs, or 0, and it
      takes half an octet for each of them and for the first one. */
  lemma IntOnWire(n: nat)
    requires |NibblesOf(n)| <= 16
    ensures var s, m := EncodeInt(n), |NibblesOf(n)|;
            && n < Power16(m) && (m > 0 ==> Power16(m - 1) <= n)
            && |s| == m / 2 + 1 && s[0] as int / 16 == (if m == 0 then 0 else m - 1)
  {
    NibblesNeeded(n);
    PackedAt(IntNibbles(n), [], 0);
    assert EncodeInt(n) + [] == EncodeInt(n);
  }

  /** The least significant nibble comes first, in the low half of the first octet. */
  lemma IntExample()
    ensures |NibblesOf(0x52)| == 2 && EncodeInt(0x52) == [0x12, 0x50]
  {
    hide Pack;
    assert NibblesOf(0x5) == [5];
    assert NibblesOf(0x52) == [2, 5];
    var ns := IntNibbles(0x52);
    assert ns == [1, 2, 5];
    PackThree(ns);
  }

  lemma PackThree(ns: seq<nat>)
    requires |ns| == 3 && forall i :: 0 <= i < 3 ==> ns[i] < 16
    ensures Pack(ns) == [(ns[0] * 16 + ns[1]) as byte, (ns[2] * 16) as byte]
  {
    assert ns[2..] == [ns[2]];
  }

  // ------------------------------------------------------------ tags by sevens

  /** `evtag_encode_tag`. */
  function EncodeTag(tag: nat): (s: seq<byte>)
    ensures s != []
  {
    if tag < 128 then [tag as byte] else [(128 + tag % 128) as byte] + EncodeTag(tag / 128)
  }

  /** The tag that `k` octets hold. */
  function TagValue(s: seq<byte>, k: nat): nat
    requires k <= |s|
    decreases k
  {
    if k == 0 then 0 else s[0] as int % 128 + 128 * TagValue(s[1..], k - 1)
  }

  /** The number of octets of the tag: up to the first without its high bit. */
  function TagSize(s: seq<byte>): (k: Option<nat>)
    ensures k.Some? ==> 1 <= k.value <= |s| && s[k.value - 1] < 128 && forall i :: 0 <= i < k.value - 1 ==> s[i] >= 128
    ensures k.None? ==> forall i :: 0 <= i < |s| ==> s[i] >= 128
  {
    if s == [] then None
    else if s[0] < 128 then Some(1)
    else match TagSize(s[1..]) case None => None case Some(k) => Some(k + 1)
  }

  /** `decode_tag_internal`: the tag, kept to 32 bits, and how many octets it takes. */
  function DecodeTag(s: seq<byte>): (r: Option<(nat, nat)>)
    ensures r.Some? ==> 1 <= r.value.1 <= |s|
  {
    match TagSize(s)
    case None => None
    case Some(k) => Some((TagValue(s, k) % TWO_32, k))
  }

  lemma {:induction false} TagSizeOf(tag: nat, rest: seq<byte>)
    ensures TagSize(EncodeTag(tag) + rest) == Some(|EncodeTag(tag)|)
    ensures TagValue(EncodeTag(tag) + rest, |EncodeTag(tag)|) == tag
  {
    var s := EncodeTag(tag) + rest;
    if tag < 128 {
      assert s[0] == tag as byte;
      assert TagValue(s[1..], 0) == 0;
    } else {
      assert s[1..] == EncodeTag(tag / 128) + rest;
      TagSizeOf(tag / 128, rest);
    }
  }

  lemma {:induction false} TagFits(tag: nat, k: nat)
    requires tag < Power128(k) && k > 0
    ensures |EncodeTag(tag)| <= k
  {
    if tag >= 128 { TagFits(tag / 128, k - 1); }
  }

  function Power128(k: nat): nat {
    if k == 0 then 1 else 128 * Power128(k - 1)
  }

  lemma TagRoundTrip(tag: nat, rest: seq<byte>)
    requires tag < TWO_32
    ensures DecodeTag(EncodeTag(tag) + rest) == Some((tag, |EncodeTag(tag)|)) && |EncodeTag(tag)| <= 5
  {
    hide EncodeTag, TagSize, TagValue, Power128;
    TagSizeOf(tag, rest);
    FiveSevens();
    TagFits(tag, 5);
  }

  lemma FiveSevens()
    ensures Power128(5) == 0x8_0000_0000
  {
    assert Power128(1) == 128;
    assert Power128(2) == 128 * Power128(1);
    assert Power128(3) == 128 * Power128(2);
    assert Power128(4) == 128 * Power128(3);
  }

  /** The least significant seven bits come first, with the high bit set. */
  lemma TagExample()
    ensures EncodeTag(300) == [0xac, 0x02]
  {
    assert EncodeTag(2) == [2];
  }

  // ------------------------------------------------------------ records

  /** What one of the `evtag_marshal` functions is given. */
  datatype Record =
    | Raw(tag: nat, data: seq<byte>)
    | Int(tag: nat, n: nat)
    | Int64(tag: nat, n: nat)
    | Timeval(tag: nat, sec: nat, usec: nat)

  predicate Fits32(n: nat) {
    n < TWO_32
  }

  predicate RecordOk(r: Record) {
    Fits32(r.tag) &&
    match r
    case Raw(_, data) => |data| < TWO_31
    case Int(_, n) => n < TWO_32
    case Int64(_, n) => n < TWO_64
    case Timeval(_, sec, usec) => sec < TWO_32 && usec < TWO_32
  }

  lemma Sizes(n: nat)
    ensures n < TWO_32 ==> |NibblesOf(n)| <= 8
    ensures n < TWO_64 ==> |NibblesOf(n)| <= 16
  {
    assert Power16(8) == TWO_32 by {
      assert Power16(4) == 65536;
      assert Power16(8) == 16 * (16 * (16 * (16 * Power16(4))));
    }
    assert Power16(16) == TWO_64 by {
      assert Power16(12) == 16 * (16 * (16 * (16 * Power16(8))));
      assert Power16(16) == 16 * (16 * (16 * (16 * Power16(12))));
    }
    if n < TWO_32 { NibbleCount(n, 8); }
    if n < TWO_64 { NibbleCount(n, 16); }
  }

  /** The data part. */
  function Payload(r: Record): seq<byte>
    requires RecordOk(r)
  {
    match r
    case Raw(_, data) => data
    case Int(_, n) => Sizes(n); EncodeInt(n)
    case Int64(_, n) => Sizes(n); EncodeInt(n)
    case Timeval(_, sec, usec) => Sizes(sec); Sizes(usec); EncodeInt(sec) + EncodeInt(usec)
  }

  lemma PayloadSmall(r: Record)
    requires RecordOk(r)
    ensures |Payload(r)| < TWO_31 && |NibblesOf(|Payload(r)|)| <= 8
  {
    Sizes(|Payload(r)|);
  }

  function Header(r: Record): seq<byte>
    requires RecordOk(r)
  {
    PayloadSmall(r);
    EncodeTag(r.tag) + EncodeInt(|Payload(r)|)
  }

  function Marshal(r: Record): seq<byte>
    requires RecordOk(r)
  {
    Header(r) + Payload(r)
  }

  /** A tag and a length at the start of `s`, and how many octets both take. */
  function HeaderOf(s: seq<byte>): (r: Option<(nat, nat, nat)>)
    ensures r.Some? ==> 2 <= r.value.2 <= |s|
  {
    match DecodeTag(s)
    case None => None
    case Some((tag, k)) =>
      match DecodeInt(s[k..], 8)
      case None => None
      case Some((len, j)) => Some((tag, len, k + j))
  }

  /** `evtag_unmarshal_header`: only when all of the data is there. */
  function UnmarshalHeader(s: seq<byte>): (r: Option<(nat, nat, nat)>)
    ensures r.Some? ==> r.value.2 + r.value.1 <= |s|
  {
    match HeaderOf(s)
    case None => None
    case Some((tag, len, at)) => if |s| - at < len then None else Some((tag, len, at))
  }

  lemma HeaderRoundTrip(r: Record, rest: seq<byte>)
    requires RecordOk(r)
    ensures UnmarshalHeader(Marshal(r) + rest) == Some((r.tag, |Payload(r)|, |Header(r)|))
  {
    hide EncodeTag, DecodeTag, EncodeInt, DecodeInt, Payload, NibblesOf;
    PayloadSmall(r);
    var t, l, d := EncodeTag(r.tag), EncodeInt(|Payload(r)|), Payload(r);
    TagRoundTrip(r.tag, l + (d + rest));
    IntRoundTrip(|d|, 8, d + rest);
    assert Marshal(r) + rest == t + (l + (d + rest));
    assert (t + (l + (d + rest)))[|t|..] == l + (d + rest);
  }

  datatype Kind = KRaw | KInt | KInt64 | KTimeval

  function KindOf(r: Record): Kind {
    match r case Raw(_, _) => KRaw case Int(_, _) => KInt case Int64(_, _) => KInt64 case Timeval(_, _, _) => KTimeval
  }

  /** The `evtag_unmarshal` function for a kind: the record, and what is left of the buffer. */
  function Unmarshal(s: seq<byte>, kind: Kind): Option<(Record, seq<byte>)> {
    match UnmarshalHeader(s)
    case None => None
    case Some((tag, len, at)) => UnmarshalData(tag, s[at..], len, kind, s[at + len..])
  }

  /** What follows the header. */
  function UnmarshalData(tag: nat, data: seq<byte>, len: nat, kind: Kind, rest: seq<byte>)
    : Option<(Record, seq<byte>)>
    requires len <= |data|
  {
    match kind
    case KRaw => Some((Raw(tag, data[..len]), rest))
    case KInt => UnmarshalInt(tag, data, len, 8, rest)
    case KInt64 => UnmarshalInt(tag, data, len, 16, rest)
    case KTimeval =>
      match DecodeInt(data, 8)
      case None => None
      case Some((sec, k)) =>
        match DecodeInt(data[k..], 8)
        case None => None
        case Some((usec, j)) => if k + j > len then None else Some((Timeval(tag, sec, usec), rest))
  }

  function UnmarshalInt(tag: nat, data: seq<byte>, len: nat, maxNibbles: nat, rest: seq<byte>)
    : Option<(Record, seq<byte>)>
  {
    match DecodeInt(data, maxNibbles)
    case None => None
    case Some((n, k)) => if k > len then None else Some((if maxNibbles == 8 then Int(tag, n) else Int64(tag, n), rest))
  }

  lemma DataRoundTrip(r: Record, rest: seq<byte>)
    requires RecordOk(r)
    ensures UnmarshalData(r.tag, Payload(r) + rest, |Payload(r)|, KindOf(r), rest) == Some((r, rest))
  {
    hide EncodeInt, DecodeInt, NibblesOf;
    var d := Payload(r);
    match r {
      case Raw(_, _) =>
        assert (d + rest)[..|d|] == d;
      case Int(_, n) =>
        Sizes(n);
        IntRoundTrip(n, 8, rest);
      case Int64(_, n) =>
        Sizes(n);
        IntRoundTrip(n, 16, rest);
      case Timeval(_, sec, usec) =>
        Sizes(sec);
        Sizes(usec);
        var a, b := EncodeInt(sec), EncodeInt(usec);
        IntRoundTrip(sec, 8, b + rest);
        IntRoundTrip(usec, 8, rest);
        assert d + rest == a + (b + rest);
        assert (a + (b + rest))[|a|..] == b + rest;
    }
  }

  /** One record is read back, and exactly the rest is left. */
  lemma RecordRoundTrip(r: Record, rest: seq<byte>)
    requires RecordOk(r)
    ensures Unmarshal(Marshal(r) + rest, KindOf(r)) == Some((r, rest))
  {
    hide Header, UnmarshalHeader, Payload, UnmarshalData, RecordOk;
    HeaderRoundTrip(r, rest);
    var s, h, d := Marshal(r) + rest, Header(r), Payload(r);
    assert s == h + (d + rest);
    assert s[|h|..] == d + rest;
    assert s[|h| + |d|..] == rest;
    DataRoundTrip(r, rest);
  }

  function MarshalAll(rs: seq<Record>): seq<byte>
    requires forall i :: 0 <= i < |rs| ==> RecordOk(rs[i])
  {
    if rs == [] then [] else Marshal(rs[0]) + MarshalAll(rs[1..])
  }

  /** Records of known kinds, read one after another. */
  function UnmarshalAll(s: seq<byte>, kinds: seq<Kind>): Option<(seq<Record>, seq<byte>)>
    decreases |kinds|
  {
    if kinds == [] then Some(([], s))
    else
      match Unmarshal(s, kinds[0])
      case None => None
      case Some((r, rest)) =>
        match UnmarshalAll(rest, kinds[1..])
        case None => None
        case Some((rs, end)) => Some(([r] + rs, end))
  }

  function Kinds(rs: seq<Record>): seq<Kind> {
    if rs == [] then [] else [KindOf(rs[0])] + Kinds(rs[1..])
  }

  /** Any sequence of records, of any kinds, is read back in order, and exactly what follows is left. */
  lemma {:induction false} StreamRoundTrip(rs: seq<Record>, rest: seq<byte>)
    requires forall i :: 0 <= i < |rs| ==> RecordOk(rs[i])
    ensures UnmarshalAll(MarshalAll(rs) + rest, Kinds(rs)) == Some((rs, rest))
  {
    hide Marshal, Unmarshal, RecordOk, KindOf;
    if rs == [] {
      assert MarshalAll(rs) + rest == rest;
    } else {
      ConcatAssoc(Marshal(rs[0]), MarshalAll(rs[1..]), rest);
      RecordRoundTrip(rs[0], MarshalAll(rs[1..]) + rest);
      StreamRoundTrip(rs[1..], rest);
      assert Kinds(rs)[0] == KindOf(rs[0]) && Kinds(rs)[1..] == Kinds(rs[1..]);
      assert rs == [rs[0]] + rs[1..];
    }
  }

  // ------------------------------------------------------------ looking ahead

  /** `evtag_peek_length`, in 32-bit arithmetic. */
  function PeekLength(s: seq<byte>): Option<nat> {
    match HeaderOf(s)
    case None => None
    case Some((_, len, at)) => Some((len + at) % TWO_32)
  }

  /** `evtag_consume`: what is left.  The length passes through an `int`, so that one of 2^31 and more drains
      everything, except that the largest is taken for an error. */
  function Consume(s: seq<byte>): Option<seq<byte>> {
    match UnmarshalHeader(s)
    case None => None
    case Some((_, len, at)) =>
      if len == TWO_32 - 1 then None else if len >= TWO_31 then Some([]) else Some(s[at + len..])
  }

  /** What `evtag_consume` drains is what `evtag_peek_length` says, if and only if the length and its header are within
      32 bits, and the length within 31 or the record the whole buffer. */
  lemma PeekIsDrained(s: seq<byte>)
    requires Consume(s).Some?
    ensures var (_, len, at) := HeaderOf(s).value;
            PeekLength(s) == Some(|s| - |Consume(s).value|) <==>
            if len < TWO_31 then len + at < TWO_32 else |s| == (len + at) % TWO_32
    ensures |s| < TWO_31 ==> PeekLength(s) == Some(|s| - |Consume(s).value|)
  {
    hide HeaderOf;
    var (_, len, at) := HeaderOf(s).value;
    if len + at < TWO_32 { assert (len + at) % TWO_32 == len + at; }
  }

  /** A caller who waits until as much is there as was announced can consume the record, and one who does not wait
      cannot, if and only if the announcement does not wrap to something that is there already. */
  lemma PeekTellsPresence(s: seq<byte>)
    requires HeaderOf(s).Some?
    ensures var (_, len, at) := HeaderOf(s).value;
            (Consume(s).Some? <==> PeekLength(s).value <= |s|) <==>
            if len + at <= |s| then len != TWO_32 - 1 else (len + at) % TWO_32 > |s|
  {
    hide HeaderOf;
    var (_, len, at) := HeaderOf(s).value;
    if len + at <= |s| { assert (len + at) % TWO_32 <= len + at; }
  }

  /** Six octets announce a record of five, which cannot be consumed. */
  lemma PeekWraps()
    ensures var s: seq<byte> := [0x01, 0x7f, 0xff, 0xff, 0xff, 0xf0];
            PeekLength(s) == Some(5) && Consume(s) == None
  {
    var s: seq<byte> := [0x01, 0x7f, 0xff, 0xff, 0xff, 0xf0];
    assert DecodeTag(s) == Some((1, 1)) by {
      assert TagSize(s) == Some(1);
      assert TagValue(s[1..], 0) == 0;
    }
    var t := s[1..];
    assert t == [0x7f, 0xff, 0xff, 0xff, 0xf0];
    assert Digits(t, 8, 1) == 15 by { assert NibbleAt(t, 8) == 15 && Digits(t, 9, 0) == 0; }
    assert Digits(t, 7, 2) == 255 by { assert NibbleAt(t, 7) == 15; }
    assert Digits(t, 6, 3) == 4095 by { assert NibbleAt(t, 6) == 15; }
    assert Digits(t, 5, 4) == 65535 by { assert NibbleAt(t, 5) == 15; }
    assert Digits(t, 4, 5) == 1048575 by { assert NibbleAt(t, 4) == 15; }
    assert Digits(t, 3, 6) == 16777215 by { assert NibbleAt(t, 3) == 15; }
    assert Digits(t, 2, 7) == 268435455 by { assert NibbleAt(t, 2) == 15; }
    assert Digits(t, 1, 8) == 4294967295 by { assert NibbleAt(t, 1) == 15; }
    assert DecodeInt(t, 8) == Some((4294967295, 5));
  }

  // ------------------------------------------------------------ the loops

  /** The octets are the nibbles `ns`, then zeros. */
  ghost predicate Holds(s: seq<byte>, ns: seq<nat>) {
    forall p :: 0 <= p < 2 * |s| ==> NibbleAt(s, p) == if p < |ns| then ns[p] else 0
  }

  lemma {:induction false} HoldsPacked(s: seq<byte>, ns: seq<nat>)
    requires Holds(s, ns) && |s| == (|ns| + 1) / 2 && forall i :: 0 <= i < |ns| ==> ns[i] < 16
    ensures s == Pack(ns)
  {
    forall i | 0 <= i < |s| ensures s[i] == Pack(ns)[i] {
      PackedAt(ns, [], 2 * i);
      PackedAt(ns, [], 2 * i + 1);
      assert Pack(ns) + [] == Pack(ns);
      assert NibbleAt(s, 2 * i) == NibbleAt(Pack(ns), 2 * i) && NibbleAt(s, 2 * i + 1) == NibbleAt(Pack(ns), 2 * i + 1);
    }
  }

  /** Setting one nibble. */
  function WithNibble(c: byte, low: bool, x: nat): byte
    requires x < 16
  {
    if low then (c as int / 16 * 16 + x) as byte else (x * 16 + c as int % 16) as byte
  }

  lemma HoldsNext(s: seq<byte>, ns: seq<nat>, x: nat)
    requires Holds(s, ns) && |ns| < 2 * |s| && x < 16
    ensures var i := |ns| / 2; Holds(s[i := WithNibble(s[i], |ns| % 2 == 1, x)], ns + [x])
  {
    var i := |ns| / 2;
    var s' := s[i := WithNibble(s[i], |ns| % 2 == 1, x)];
    forall p | 0 <= p < 2 * |s'| ensures NibbleAt(s', p) == if p < |ns| + 1 then (ns + [x])[p] else 0 {
      assert NibbleAt(s, p) == if p < |ns| then ns[p] else 0;
      assert p / 2 == i ==> p == 2 * i || p == 2 * i + 1;
    }
  }

  /** Setting the first. */
  lemma HoldsHeader(s: seq<byte>, ns: seq<nat>, x: nat)
    requires Holds(s, ns) && s != [] && ns != [] && x < 16
    ensures Holds(s[0 := WithNibble(s[0], false, x)], ns[0 := x])
  {
    var s' := s[0 := WithNibble(s[0], false, x)];
    forall p | 0 <= p < 2 * |s'| ensures NibbleAt(s', p) == if p < |ns| then ns[0 := x][p] else 0 {
      assert NibbleAt(s, p) == if p < |ns| then ns[p] else 0;
    }
  }

  /** ENCODE_INT_INTERNAL, for 32 bits into 5 octets and for 64 bits into 9. */
  method EncodeIntInternal(data: array<byte>, number: nat) returns (len: nat)
    requires data.Length == 5 || data.Length == 9
    requires |NibblesOf(number)| <= 2 * (data.Length - 1)
    modifies data
    ensures len <= data.Length && data[..len] == EncodeInt(number)
  {
    hide NibbleAt, Pack, Holds, WithNibble;
    forall i | 0 <= i < data.Length { data[i] := 0; }
    var off, n := 1, number;
    ghost var done: seq<nat> := [0];
    ZerosHold(data[..]);
    while n != 0
      invariant off == |done| && Holds(data[..], done) && done + NibblesOf(n) == [0] + NibblesOf(number)
      invariant forall i :: 0 <= i < |done| ==> done[i] < 16
      decreases n
    {
      HoldsNext(data[..], done, n % 16);
      data[off / 2] := WithNibble(data[off / 2], off % 2 == 1, n % 16);
      assert done + NibblesOf(n) == done + [n % 16] + NibblesOf(n / 16);
      done := done + [n % 16];
      n := n / 16;
      off := off + 1;
    }
    assert done + [] == done;
    var nibbles := if off > 2 then off - 2 else 0;
    HoldsHeader(data[..], done, nibbles);
    data[0] := WithNibble(data[0], false, nibbles);
    len := (off + 1) / 2;
    assert done[0 := nibbles] == IntNibbles(number);
    HoldsPrefix(data[..], done[0 := nibbles], len);
    HoldsPacked(data[..len], done[0 := nibbles]);
  }

  lemma ZerosHold(s: seq<byte>)
    requires forall i :: 0 <= i < |s| ==> s[i] == 0
    ensures Holds(s, [0])
  {
  }

  lemma HoldsPrefix(s: seq<byte>, ns: seq<nat>, len: nat)
    requires Holds(s, ns) && len <= |s|
    ensures Holds(s[..len], ns)
  {
    forall p | 0 <= p < 2 * len ensures NibbleAt(s[..len], p) == NibbleAt(s, p) {
    }
  }

  /** DECODE_INT_INTERNAL: from the last nibble to the first. */
  method DecodeIntInternal(evbuf: seq<byte>, offset: nat, maxNibbles: nat) returns (r: Option<(nat, nat)>)
    requires offset <= |evbuf|
    ensures r == DecodeInt(evbuf[offset..], maxNibbles)
  {
    hide NibbleAt;
    var data := evbuf[offset..];
    if |data| == 0 { return None; }
    var total := data[0] as int / 16 + 1;
    if total > maxNibbles || total / 2 + 1 > |data| { return None; }
    var number, nibbles := 0, total;
    while nibbles > 0
      invariant 0 <= nibbles <= total && number == Digits(data, nibbles + 1, total - nibbles)
    {
      number := number * 16 + NibbleAt(data, nibbles);
      nibbles := nibbles - 1;
    }
    r := Some((number, total / 2 + 1));
  }

  /** `evtag_encode_tag`. */
  method EncodeTagInternal(tag: nat) returns (data: seq<byte>)
    ensures data == EncodeTag(tag)
  {
    data := [];
    var rest := tag;
    while rest >= 128
      invariant data + EncodeTag(rest) == EncodeTag(tag)
    {
      assert data + EncodeTag(rest) == data + [(128 + rest % 128) as byte] + EncodeTag(rest / 128);
      data := data + [(128 + rest % 128) as byte];
      rest := rest / 128;
    }
    data := data + [rest as byte];
  }

  /** `decode_tag_internal`, of a buffer in which the tag ends within five octets or does not end. */
  method DecodeTagInternal(evbuf: seq<byte>) returns (r: Option<(nat, nat)>)
    ensures r == DecodeTag(evbuf)
  {
    hide TagValue, Power128;
    var number, count, scale := 0, 0, 1;
    assert evbuf[0..] == evbuf;
    TagValueStart(evbuf);
    while count < |evbuf|
      invariant 0 <= count <= |evbuf| && scale == Power128(count) && number == TagValue(evbuf, count)
      invariant TagSize(evbuf) == match TagSize(evbuf[count..]) case None => None case Some(k) => Some(count + k)
    {
      var lower := evbuf[count];
      TagValueNext(evbuf, count);
      PowerNext(count);
      number := number + lower as int % 128 * scale;
      assert evbuf[count..][1..] == evbuf[count + 1..];
      count := count + 1;
      scale := scale * 128;
      if lower < 128 { return Some((number % TWO_32, count)); }
    }
    r := None;
  }

  lemma TagValueStart(s: seq<byte>)
    ensures TagValue(s, 0) == 0 && Power128(0) == 1
  {
  }

  lemma PowerNext(k: nat)
    ensures Power128(k) * 128 == Power128(k + 1)
  {
  }

  lemma Distribute(c: int, v: int, x: int, w: int)
    ensures c + 128 * (v + x * w) == c + 128 * v + x * (128 * w)
  {
  }

  lemma {:induction false} TagValueNext(s: seq<byte>, k: nat)
    requires k < |s|
    ensures TagValue(s, k + 1) == TagValue(s, k) + s[k] as int % 128 * Power128(k)
    decreases k
  {
    var c, x := s[0] as int % 128, s[k] as int % 128;
    if k == 0 {
      assert TagValue(s, 1) == c + 128 * TagValue(s[1..], 0);
    } else {
      TagValueNext(s[1..], k - 1);
      var v, v', w := TagValue(s[1..], k - 1), TagValue(s[1..], k), Power128(k - 1);
      assert TagValue(s, k) == c + 128 * v && TagValue(s, k + 1) == c + 128 * v' && Power128(k) == 128 * w;
      assert s[1..][k - 1] == s[k];
      hide TagValue, Power128;
      Distribute(c, v, x, w);
    }
  }
}
