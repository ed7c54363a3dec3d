/**
 Domain names on the wire: the label encoder with its compression table, and the
 pointer-following decoder (libevent/evdns.c, section 4.1.4 of RFC 1035).

 `Reads` is the meaning of a name field and mentions neither loop: the decoder is
 proved to return exactly what `Reads` allows, the encoder to emit bytes that `Reads`
 takes back to the labels of the name.
 */
module DnsName {
  import opened Common

  const DOT: byte := 46
  const MAX_LABELS := 128
  const MAX_LABEL_LEN := 63
  const MAX_NAME_LEN := 255

  type Label = seq<byte>
  type Name = seq<byte>

  // ------------------------------------------------------------ meaning of a name field

  function Target(hi: byte, lo: byte): nat {
    hi as int % 64 * 256 + lo as int
  }

  /** The field at offset `j` of packet `p` spells `labels`, following `hops` pointers. */
  ghost predicate Reads(p: seq<byte>, j: int, labels: seq<Label>, hops: nat)
    decreases hops, |labels|
  {
    && 0 <= j < |p|
    && if p[j] == 0 then
         labels == [] && hops == 0
       else if p[j] >= 0x40 then
         j + 1 < |p| && hops > 0 && Reads(p, Target(p[j], p[j + 1]), labels, hops - 1)
       else
         && |labels| > 0 && j + 1 + p[j] as int <= |p|
         && labels[0] == p[j + 1..j + 1 + p[j] as int]
         && Reads(p, j + 1 + p[j] as int, labels[1..], hops)
  }

  /** The first offset after the name field at `j`: a field ends at a zero or after one pointer. */
  ghost function NameEnd(p: seq<byte>, j: int): int
    decreases |p| - j
  {
    if !(0 <= j < |p|) then -1
    else if p[j] == 0 then j + 1
    else if p[j] >= 0x40 then j + 2
    else NameEnd(p, j + 1 + p[j] as int)
  }

  function Join(labels: seq<Label>): Name {
    if |labels| == 0 then []
    else if |labels| == 1 then labels[0]
    else labels[0] + [DOT] + Join(labels[1..])
  }

  /** The fields that the decoder accepts: no more jumps than octets in the packet, and room for the
      terminating zero in the output. */
  ghost predicate Accepts(p: seq<byte>, j: int, outLen: int, labels: seq<Label>, hops: nat) {
    Reads(p, j, labels, hops) && hops <= |p| && |Join(labels)| < outLen
  }

  /** What decoding the field at `j` into `outLen` octets yields: the name and the offset after it. */
  ghost function Decoded(p: seq<byte>, j: int, outLen: int): (r: Option<(Name, int)>)
    ensures r.Some? ==> 0 <= r.value.1 <= |p|
  {
    if exists labels: seq<Label>, hops: nat :: Accepts(p, j, outLen, labels, hops) then
      var labels: seq<Label>, hops: nat :| Accepts(p, j, outLen, labels, hops);
      ReadsEnds(p, j, labels, hops);
      Some((Join(labels), NameEnd(p, j)))
    else None
  }

  lemma {:induction false} ReadsEnds(p: seq<byte>, j: int, labels: seq<Label>, hops: nat)
    requires Reads(p, j, labels, hops)
    ensures 0 <= NameEnd(p, j) <= |p|
    decreases |labels|
  {
    if 0 < p[j] < 0x40 {
      ReadsEnds(p, j + 1 + p[j] as int, labels[1..], hops);
    }
  }

  /** A field has one reading. */
  lemma {:induction false} ReadsUnique(p: seq<byte>, j: int, l1: seq<Label>, h1: nat, l2: seq<Label>, h2: nat)
    requires Reads(p, j, l1, h1) && Reads(p, j, l2, h2)
    ensures l1 == l2 && h1 == h2
    decreases h1, |l1|
  {
    if p[j] == 0 {
    } else if p[j] >= 0x40 {
      ReadsUnique(p, Target(p[j], p[j + 1]), l1, h1 - 1, l2, h2 - 1);
    } else {
      ReadsUnique(p, j + 1 + p[j] as int, l1[1..], h1, l2[1..], h2);
      assert l1 == [l1[0]] + l1[1..] && l2 == [l2[0]] + l2[1..];
    }
  }

  lemma {:induction false} DecodedIs(p: seq<byte>, j: int, outLen: int, labels: seq<Label>, hops: nat)
    requires Accepts(p, j, outLen, labels, hops)
    ensures Decoded(p, j, outLen) == Some((Join(labels), NameEnd(p, j)))
  {
    forall l: seq<Label>, h: nat | Accepts(p, j, outLen, l, h) ensures l == labels {
      ReadsUnique(p, j, labels, hops, l, h);
    }
  }

  lemma {:induction false} JoinSnoc(labels: seq<Label>, l: Label)
    ensures Join(labels + [l]) == if labels == [] then l else Join(labels) + [DOT] + l
  {
    if |labels| > 1 {
      JoinSnoc(labels[1..], l);
      assert (labels + [l])[1..] == labels[1..] + [l];
    } else if |labels| == 1 {
      assert (labels + [l])[1..] == [l];
    }
  }

  lemma {:induction false} JoinPrefixShorter(done: seq<Label>, rest: seq<Label>)
    ensures |Join(done)| <= |Join(done + rest)|
  {
    if |done| > 1 {
      JoinPrefixShorter(done[1..], rest);
      assert (done + rest)[1..] == done[1..] + rest;
    } else if |done| == 1 {
      assert (done + rest)[0] == done[0];
    }
  }

  // ------------------------------------------------------------ the decoder

  /** `whole` is the reading at `idx` exactly when its tail is the reading at `j`. */
  ghost predicate Position(p: seq<byte>, idx: int, j: int, done: seq<Label>, jumps: nat) {
    forall labels: seq<Label>, hops: nat ::
      Reads(p, idx, labels, hops) <==>
      && done <= labels && jumps <= hops
      && Reads(p, j, labels[|done|..], hops - jumps)
  }

  lemma {:induction false} PositionLabel(p: seq<byte>, idx: int, j: int, done: seq<Label>, jumps: nat)
    requires Position(p, idx, j, done, jumps)
    requires 0 <= j < |p| && 0 < p[j] < 0x40 && j + 1 + p[j] as int <= |p|
    ensures Position(p, idx, j + 1 + p[j] as int, done + [p[j + 1..j + 1 + p[j] as int]], jumps)
  {
  }

  lemma {:induction false} PositionPointer(p: seq<byte>, idx: int, j: int, done: seq<Label>, jumps: nat)
    requires Position(p, idx, j, done, jumps)
    requires 0 <= j && j + 1 < |p| && p[j] >= 0x40
    ensures Position(p, idx, Target(p[j], p[j + 1]), done, jumps + 1)
  {
  }

  lemma {:induction false} PositionStart(p: seq<byte>, idx: int)
    ensures Position(p, idx, idx, [], 0)
  {
    var none: seq<Label> := [];
    assert forall labels: seq<Label> :: none <= labels && labels[|none|..] == labels;
  }

  /** Nothing past this position is a reading the decoder may accept. */
  lemma {:induction false} Rejected(p: seq<byte>, idx: int, outLen: int, j: int, done: seq<Label>, jumps: nat)
    requires Position(p, idx, j, done, jumps)
    requires forall l: seq<Label>, h: nat :: Reads(p, j, l, h) ==> jumps + h > |p| || |Join(done + l)| >= outLen
    ensures Decoded(p, idx, outLen) == None
  {
    forall labels: seq<Label>, hops: nat | Reads(p, idx, labels, hops)
      ensures !Accepts(p, idx, outLen, labels, hops)
    {
      assert labels == done + labels[|done|..];
      assert Reads(p, j, labels[|done|..], hops - jumps);
    }
  }

  lemma {:induction false} RejectJump(p: seq<byte>, idx: int, outLen: int, j: int, done: seq<Label>, jumps: nat)
    requires Position(p, idx, j, done, jumps)
    requires j >= |p| || jumps > |p| || (0 <= j && j + 1 == |p| && p[j] >= 0x40)
    ensures Decoded(p, idx, outLen) == None
  {
    Rejected(p, idx, outLen, j, done, jumps);
  }

  lemma {:induction false} RejectLabel(p: seq<byte>, idx: int, outLen: int, j: int, done: seq<Label>, jumps: nat)
    requires Position(p, idx, j, done, jumps)
    requires 0 <= j < |p| && 0 < p[j] < 0x40
    requires j + 1 + p[j] as int > |p| || |Join(done)| + (if done == [] then 0 else 1) + p[j] as int >= outLen
    ensures Decoded(p, idx, outLen) == None
  {
    forall l: seq<Label>, h: nat | Reads(p, j, l, h)
      ensures jumps + h > |p| || |Join(done + l)| >= outLen
    {
      JoinSnoc(done, l[0]);
      JoinPrefixShorter(done + [l[0]], l[1..]);
      assert done + [l[0]] + l[1..] == done + l;
    }
    Rejected(p, idx, outLen, j, done, jumps);
  }

  lemma {:induction false} FinishAtZero(p: seq<byte>, idx: int, outLen: int, j: int, done: seq<Label>, jumps: nat)
    requires Position(p, idx, j, done, jumps) && jumps <= |p|
    requires 0 <= j < |p| && p[j] == 0
    ensures Decoded(p, idx, outLen)
         == if |Join(done)| < outLen then Some((Join(done), NameEnd(p, idx))) else None
  {
    assert Reads(p, j, [], 0) && done[|done|..] == [];
    assert Reads(p, idx, done, jumps);
    if |Join(done)| < outLen {
      DecodedIs(p, idx, outLen, done, jumps);
    } else {
      assert done + [] == done;
      Rejected(p, idx, outLen, j, done, jumps);
    }
  }

  /** The end of the field, once the pieces before `j` have been read. */
  ghost predicate EndKnown(p: seq<byte>, idx: int, j: int, nameEnd: int) {
    NameEnd(p, idx) == if nameEnd < 0 then NameEnd(p, j) else nameEnd
  }

  /** `name_parse`.  Label lengths 64 to 191 are taken as pointers, as the code does.  A label that
      runs past the packet is copied from beyond it by the code, whose next round then fails; here
      the call fails at once. */
  method NameParse(packet: seq<byte>, idx: nat, nameOutLen: int) returns (r: Option<(Name, int)>)
    ensures r == Decoded(packet, idx, nameOutLen)
  {
    hide Position, Decoded, Join;
    var nameEnd, j, ptrCount, out := -1, idx, 0, [];
    ghost var done: seq<Label> := [];
    PositionStart(packet, idx);
    JoinEmpty();
    while true
      invariant 0 <= j && ptrCount <= |packet|
      invariant Position(packet, idx, j, done, ptrCount)
      invariant out == Join(done) && (done == [] <==> out == [])
      invariant EndKnown(packet, idx, j, nameEnd)
      decreases |packet| - ptrCount, |packet| - j
    {
      if j >= |packet| {
        RejectJump(packet, idx, nameOutLen, j, done, ptrCount);
        return None;
      }
      var labelLen := packet[j] as int;
      if labelLen == 0 {
        break;
      }
      if labelLen >= 0x40 {
        if j + 1 >= |packet| {
          RejectJump(packet, idx, nameOutLen, j, done, ptrCount);
          return None;
        }
        PositionPointer(packet, idx, j, done, ptrCount);
        if nameEnd < 0 { nameEnd := j + 2; }
        j := Target(packet[j], packet[j + 1]);
        ptrCount := ptrCount + 1;
        if j >= |packet| || ptrCount > |packet| {
          RejectJump(packet, idx, nameOutLen, j, done, ptrCount);
          return None;
        }
      } else {
        var sep := if out != [] then [DOT] else [];
        if (out != [] && |out| + 1 >= nameOutLen) || |out + sep| + labelLen >= nameOutLen
          || j + 1 + labelLen > |packet|
        {
          RejectLabel(packet, idx, nameOutLen, j, done, ptrCount);
          return None;
        }
        ghost var l := packet[j + 1..j + 1 + labelLen];
        PositionLabel(packet, idx, j, done, ptrCount);
        JoinSnoc(done, l);
        out := out + sep + packet[j + 1..j + 1 + labelLen];
        done := done + [l];
        j := j + 1 + labelLen;
      }
    }
    FinishAtZero(packet, idx, nameOutLen, j, done, ptrCount);
    if |out| >= nameOutLen { return None; }
    return Some((out, if nameEnd < 0 then j + 1 else nameEnd));
  }

  lemma {:induction false} JoinEmpty()
    ensures Join([]) == []
  {
  }

  // ------------------------------------------------------------ the encoder

  /** A name suffix already in the message, and where (`struct dnslabel_entry`). */
  datatype Entry = Entry(v: Name, pos: nat)
  type Table = seq<Entry>

  /** Number of octets before the first dot, or the whole length. */
  function FirstDot(s: Name): (d: nat)
    ensures d <= |s| && forall i :: 0 <= i < d ==> s[i] != DOT
    ensures d < |s| ==> s[d] == DOT
  {
    if s == [] || s[0] == DOT then 0 else 1 + FirstDot(s[1..])
  }

  function TableGet(table: Table, v: Name): (r: int)
    ensures r >= -1
    ensures r < 0 ==> forall e :: e in table ==> e.v != v
    ensures r >= 0 ==> exists e :: e in table && e.v == v && e.pos == r
  {
    if table == [] then -1
    else if table[0].v == v then table[0].pos
    else TableGet(table[1..], v)
  }

  /** `dnslabel_table_add`; a full table stays as it is.  `limit` is MAX_LABELS, or 0 for a call
      without a table: a table that holds nothing never yields a pointer. */
  function TableAdd(table: Table, v: Name, pos: nat, limit: nat): (r: Table) {
    if |table| >= limit then table else table + [Entry(v, pos)]
  }

  datatype Encoding =
    | Encoded(bytes: seq<byte>, table: Table)
    | TooLongLabel
    | NoRoom

  /** `ref | 0xc000`, as two octets. */
  function Pointer(ref: nat): (r: seq<byte>)
    ensures |r| == 2
  {
    Be16(0xc000 + ref % 0x4000)
  }

  /** The first `d` octets of a name, behind their length. */
  function LengthPrefixed(name: Name, d: nat): (r: seq<byte>)
    requires d <= |name| && d < 256
    ensures |r| == d + 1
  {
    [d as byte] + name[..d]
  }

  /** The labels end with a zero, unless a trailing dot has put one there already. */
  function Terminated(bytes: seq<byte>): (r: seq<byte>)
    requires bytes != []
  {
    if bytes[|bytes| - 1] == 0 then bytes else bytes + [0]
  }

  /** What `dnsname_to_labels` appends at offset `j` of a buffer of `cap` octets, for a suffix of the name. */
  function Labelled(j: nat, cap: nat, name: Name, table: Table, limit: nat): (r: Encoding)
    decreases |name|
  {
    var ref := TableGet(table, name);
    if ref >= 0 then
      if j + 2 > cap then NoRoom else Encoded(Pointer(ref), table)
    else
      var d := FirstDot(name);
      if d > MAX_LABEL_LEN then TooLongLabel
      else if j + d + 1 > cap then NoRoom
      else
        var piece, table1 := LengthPrefixed(name, d), TableAdd(table, name, j, limit);
        if d == |name| then
          Encoded(Terminated(piece), table1)
        else
          match Labelled(j + d + 1, cap, name[d + 1..], table1, limit)
          case Encoded(rest, table2) => Encoded(piece + rest, table2)
          case e => e
  }

  function Encode(j: nat, cap: nat, name: Name, table: Table, limit: nat): (r: Encoding) {
    if |name| > MAX_NAME_LEN then NoRoom else Labelled(j, cap, name, table, limit)
  }

  // ------------------------------------------------------------ what the encoder's bytes mean

  /** The labels of a dotted name, up to the first empty one. */
  function Labels(name: Name): seq<Label>
    decreases |name|
  {
    var d := FirstDot(name);
    if d == 0 then []
    else if d == |name| then [name]
    else [name[..d]] + Labels(name[d + 1..])
  }

  predicate NoEmptyLabel(name: Name)
    decreases |name|
  {
    var d := FirstDot(name);
    d > 0 && (d == |name| || NoEmptyLabel(name[d + 1..]))
  }

  /** The names that the wire format can carry: the root, or no empty label. */
  predicate Plain(name: Name) {
    name == [] || NoEmptyLabel(name)
  }

  lemma {:induction false} LabelsShorter(name: Name)
    ensures |Join(Labels(name))| <= |name|
    decreases |name|
  {
    var d := FirstDot(name);
    if 0 < d < |name| {
      LabelsShorter(name[d + 1..]);
    }
  }

  /** Splitting and joining give back exactly the plain names. */
  lemma {:induction false} JoinLabels(name: Name)
    ensures Join(Labels(name)) == name <==> Plain(name)
    decreases |name|
  {
    var d := FirstDot(name);
    if 0 < d < |name| {
      var rest := name[d + 1..];
      JoinLabels(rest);
      assert name == name[..d] + [DOT] + rest;
      if Labels(rest) == [] {
        assert FirstDot(rest) == 0 && !NoEmptyLabel(rest);
        assert |Join(Labels(name))| == d;
      } else {
        assert Labels(name)[1..] == Labels(rest);
        if Join(Labels(name)) == name {
          assert Join(Labels(rest)) == Join(Labels(name))[d + 1..];
        }
      }
    } else if d == 0 && name != [] {
      assert Join(Labels(name)) == [];
    }
  }

  predicate NoNul(name: Name) {
    forall i :: 0 <= i < |name| ==> name[i] != 0
  }

  ghost predicate ReadsWithin(p: seq<byte>, j: int, labels: seq<Label>, bound: int) {
    exists hops: nat :: hops <= bound && Reads(p, j, labels, hops)
  }

  /** The pointer that ends the field at `j`, if any, goes below `limit`. */
  ghost predicate PointsBelow(p: seq<byte>, j: int, limit: int)
    decreases |p| - j
  {
    0 <= j < |p| ==>
      if p[j] == 0 then true
      else if p[j] >= 0x40 then j + 1 < |p| && Target(p[j], p[j + 1]) < limit
      else PointsBelow(p, j + 1 + p[j] as int, limit)
  }

  /** A table entry tells the truth about the message. */
  ghost predicate EntryOk(msg: seq<byte>, e: Entry) {
    e.pos < |msg| && ReadsWithin(msg, e.pos, Labels(e.v), e.pos)
  }

  ghost predicate TableOk(msg: seq<byte>, table: Table) {
    forall e :: e in table ==> EntryOk(msg, e)
  }

  lemma {:induction false} ReadsExtend(p: seq<byte>, q: seq<byte>, j: int, labels: seq<Label>, hops: nat)
    requires Reads(p, j, labels, hops)
    ensures Reads(p + q, j, labels, hops)
    decreases hops, |labels|
  {
    if p[j] == 0 {
    } else if p[j] >= 0x40 {
      ReadsExtend(p, q, Target(p[j], p[j + 1]), labels, hops - 1);
    } else {
      ReadsExtend(p, q, j + 1 + p[j] as int, labels[1..], hops);
      assert (p + q)[j + 1..j + 1 + p[j] as int] == p[j + 1..j + 1 + p[j] as int];
    }
  }

  lemma {:induction false} ReadsWithinExtend(p: seq<byte>, q: seq<byte>, j: int, labels: seq<Label>, bound: int)
    requires ReadsWithin(p, j, labels, bound)
    ensures ReadsWithin(p + q, j, labels, bound)
  {
    var h: nat :| h <= bound && Reads(p, j, labels, h);
    ReadsExtend(p, q, j, labels, h);
  }

  lemma {:induction false} FieldExtend(p: seq<byte>, q: seq<byte>, j: int, limit: int)
    requires 0 <= NameEnd(p, j) <= |p|
    ensures NameEnd(p + q, j) == NameEnd(p, j)
    ensures PointsBelow(p, j, limit) ==> PointsBelow(p + q, j, limit)
    decreases |p| - j
  {
    if p[j] != 0 && p[j] < 0x40 {
      FieldExtend(p, q, j + 1 + p[j] as int, limit);
    }
  }

  lemma {:induction false} TableOkExtend(p: seq<byte>, q: seq<byte>, table: Table)
    requires TableOk(p, table)
    ensures TableOk(p + q, table)
  {
    forall e | e in table ensures EntryOk(p + q, e) {
      ReadsWithinExtend(p, q, e.pos, Labels(e.v), e.pos);
    }
  }

  lemma {:induction false} PointerTarget(ref: nat)
    requires ref < 0x4000
    ensures Pointer(ref)[0] >= 0x40
    ensures Target(Pointer(ref)[0], Pointer(ref)[1]) == ref
  {
  }

  /** Entries that an encoding in progress may use: those below `base`.  The others are for longer
      suffixes of the name being encoded, which no lookup can meet. */
  ghost predicate Usable(msg: seq<byte>, base: int, name: Name, table: Table) {
    forall e :: e in table ==> (e.pos < base && EntryOk(msg, e)) || |e.v| > |name|
  }

  ghost predicate NewEntriesOk(msg: seq<byte>, table: Table, table': Table) {
    table <= table' && forall k :: |table| <= k < |table'| ==> EntryOk(msg, table'[k])
  }

  /** What is promised of `bytes`, appended to `msg` for `name`. */
  ghost predicate Appended(msg: seq<byte>, base: nat, name: Name, bytes: seq<byte>) {
    && ReadsWithin(msg + bytes, |msg|, Labels(name), base)
    && PointsBelow(msg + bytes, |msg|, base)
    && (Plain(name) ==> NameEnd(msg + bytes, |msg|) == |msg + bytes|)
  }

  lemma {:induction false} PointerReads(msg: seq<byte>, base: nat, name: Name, e: Entry)
    requires base <= |msg| && e.v == name && e.pos < base && e.pos < 0x4000 && EntryOk(msg, e)
    ensures Appended(msg, base, name, Pointer(e.pos))
  {
    var p := msg + Pointer(e.pos);
    ReadsWithinExtend(msg, Pointer(e.pos), e.pos, Labels(name), e.pos);
    var h: nat :| h <= e.pos && Reads(p, e.pos, Labels(name), h);
    PointerTarget(e.pos);
    assert p[|msg|] == Pointer(e.pos)[0] && p[|msg| + 1] == Pointer(e.pos)[1];
    assert Reads(p, |msg|, Labels(name), h + 1);
  }

  lemma {:induction false} LabelReads(p: seq<byte>, j: nat, l: Label, labels: seq<Label>, hops: nat)
    requires j + 1 + |l| <= |p| && 0 < p[j] as int == |l| < 0x40 && p[j + 1..j + 1 + |l|] == l
    requires Reads(p, j + 1 + |l|, labels, hops)
    ensures Reads(p, j, [l] + labels, hops)
  {
    assert ([l] + labels)[1..] == labels;
  }

  lemma {:induction false} LastReads(msg: seq<byte>, base: nat, name: Name)
    requires FirstDot(name) == |name| <= 63 && NoNul(name)
    ensures Appended(msg, base, name, Terminated(LengthPrefixed(name, |name|)))
  {
    var bytes := Terminated(LengthPrefixed(name, |name|));
    assert name[..|name|] == name;
    var p, j := msg + bytes, |msg| + 1 + |name|;
    assert p[|msg|] as int == |name|;
    if name == [] {
      assert Reads(p, |msg|, [], 0);
    } else {
      assert p[|msg| + 1..j] == name;
      assert p[j] == 0 && Reads(p, j, [], 0);
      LabelReads(p, |msg|, name, [], 0);
      assert [name] + [] == Labels(name);
    }
  }

  lemma {:induction false} LabelReadsWithin(p: seq<byte>, j: nat, l: Label, labels: seq<Label>, bound: int)
    requires j + 1 + |l| <= |p| && 0 < p[j] as int == |l| < 0x40 && p[j + 1..j + 1 + |l|] == l
    requires ReadsWithin(p, j + 1 + |l|, labels, bound)
    ensures ReadsWithin(p, j, [l] + labels, bound)
  {
    var h: nat :| h <= bound && Reads(p, j + 1 + |l|, labels, h);
    LabelReads(p, j, l, labels, h);
  }

  lemma {:induction false} ConsReads(msg: seq<byte>, base: nat, name: Name, d: nat, rest: seq<byte>)
    requires d == FirstDot(name) < |name| && d <= 63
    requires Appended(msg + LengthPrefixed(name, d), base, name[d + 1..], rest)
    ensures Appended(msg, base, name, LengthPrefixed(name, d) + rest)
  {
    hide FirstDot, Reads;
    var piece, tail := LengthPrefixed(name, d), name[d + 1..];
    ConcatAssoc(msg, piece, rest);
    var p, q := msg + (piece + rest), |msg| + 1 + d;
    assert |msg + piece| == q && p[|msg|] as int == d;
    if d > 0 {
      assert p[|msg| + 1..q] == name[..d];
      assert Labels(name) == [name[..d]] + Labels(tail);
      LabelReadsWithin(p, |msg|, name[..d], Labels(tail), base);
    } else {
      ZeroReads(p, |msg|, base);
    }
  }

  lemma {:induction false} ZeroReads(p: seq<byte>, j: nat, bound: nat)
    requires j < |p| && p[j] == 0
    ensures ReadsWithin(p, j, [], bound)
  {
    assert Reads(p, j, [], 0);
  }

  /** The table handed to the next suffix. */
  lemma {:induction false} UsableNext(msg: seq<byte>, base: nat, name: Name, table: Table, limit: nat, piece: seq<byte>)
    requires Usable(msg, base, name, table) && FirstDot(name) < |name|
    ensures Usable(msg + piece, base, name[FirstDot(name) + 1..], TableAdd(table, name, |msg|, limit))
    ensures NoNul(name) ==> NoNul(name[FirstDot(name) + 1..])
  {
    forall e: Entry | e in table && |e.v| <= |name| ensures EntryOk(msg + piece, e) {
      ReadsWithinExtend(msg, piece, e.pos, Labels(e.v), e.pos);
    }
  }

  lemma {:induction false} NewEntriesCons(msg: seq<byte>, base: nat, name: Name, bytes: seq<byte>,
                                          table: Table, limit: nat, table': Table)
    requires base <= |msg| && bytes != [] && Appended(msg, base, name, bytes)
    requires NewEntriesOk(msg + bytes, TableAdd(table, name, |msg|, limit), table')
    ensures NewEntriesOk(msg + bytes, table, table')
  {
    assert EntryOk(msg + bytes, Entry(name, |msg|));
  }

  lemma {:induction false} LabelledCases(j: nat, cap: nat, name: Name, table: Table, limit: nat)
    requires Labelled(j, cap, name, table, limit).Encoded?
    ensures var r, ref, d := Labelled(j, cap, name, table, limit), TableGet(table, name), FirstDot(name);
            if ref >= 0 then
              j + 2 <= cap && r == Encoded(Pointer(ref), table)
            else
              && d <= 63 && j + d + 1 <= cap
              && if d == |name| then
                   r == Encoded(Terminated(LengthPrefixed(name, d)), TableAdd(table, name, j, limit))
                 else
                   var rest := Labelled(j + d + 1, cap, name[d + 1..], TableAdd(table, name, j, limit), limit);
                   rest.Encoded? && r == Encoded(LengthPrefixed(name, d) + rest.bytes, rest.table)
  {
    hide FirstDot, TableGet, TableAdd, LengthPrefixed, Terminated, Pointer;
  }

  /** One suffix: the appended octets read back as its labels with at most `base` jumps, the
      pointer goes below `base`, and the new table entries are true of the longer message. */
  lemma {:induction false} LabelledReads(msg: seq<byte>, base: nat, cap: nat, name: Name, table: Table, limit: nat)
    requires base <= |msg| && cap <= 0x4000 && NoNul(name)
    requires Usable(msg, base, name, table)
    requires Labelled(|msg|, cap, name, table, limit).Encoded?
    ensures var r := Labelled(|msg|, cap, name, table, limit);
            r.bytes != [] && Appended(msg, base, name, r.bytes) && NewEntriesOk(msg + r.bytes, table, r.table)
    decreases |name|
  {
    var j, d, ref := |msg|, FirstDot(name), TableGet(table, name);
    LabelledCases(j, cap, name, table, limit);
    if ref >= 0 {
      var e :| e in table && e.v == name && e.pos == ref;
      PointerReads(msg, base, name, e);
    } else if d == |name| {
      LastReads(msg, base, name);
      NewEntriesCons(msg, base, name, Terminated(LengthPrefixed(name, d)), table, limit,
        TableAdd(table, name, j, limit));
    } else {
      LabelledConsReads(msg, base, cap, name, table, limit);
    }
  }

  lemma {:induction false} LabelledConsReads(msg: seq<byte>, base: nat, cap: nat, name: Name, table: Table, limit: nat)
    requires base <= |msg| && cap <= 0x4000 && NoNul(name)
    requires Usable(msg, base, name, table)
    requires TableGet(table, name) < 0 && FirstDot(name) < |name|
    requires Labelled(|msg|, cap, name, table, limit).Encoded?
    ensures var r := Labelled(|msg|, cap, name, table, limit);
            r.bytes != [] && Appended(msg, base, name, r.bytes) && NewEntriesOk(msg + r.bytes, table, r.table)
    decreases |name|, 0
  {
    hide *;
    var j, d := |msg|, FirstDot(name);
    LabelledCases(j, cap, name, table, limit);
    var piece, tail := LengthPrefixed(name, d), name[d + 1..];
    var table1 := TableAdd(table, name, j, limit);
    UsableNext(msg, base, name, table, limit, piece);
    assert |msg + piece| == j + d + 1;
    LabelledReads(msg + piece, base, cap, tail, table1, limit);
    var rest := Labelled(j + d + 1, cap, tail, table1, limit);
    ConsReads(msg, base, name, d, rest.bytes);
    ConcatAssoc(msg, piece, rest.bytes);
    NewEntriesCons(msg, base, name, piece + rest.bytes, table, limit, rest.table);
  }

  /** One call of the encoder: the table stays true of the message, and the field reads back. */
  lemma {:induction false} EncodeReads(msg: seq<byte>, cap: nat, name: Name, table: Table, limit: nat)
    requires cap <= 0x4000 && NoNul(name) && TableOk(msg, table)
    requires Encode(|msg|, cap, name, table, limit).Encoded?
    ensures var r := Encode(|msg|, cap, name, table, limit);
            r.bytes != [] && TableOk(msg + r.bytes, r.table) && Appended(msg, |msg|, name, r.bytes)
  {
    LabelledReads(msg, |msg|, cap, name, table, limit);
    TableOkExtend(msg, Encode(|msg|, cap, name, table, limit).bytes, table);
  }

  // ------------------------------------------------------------ names through one table

  /** The field at `start` gives `name` back, now and in any longer packet: its labels up to the first
      empty one, hence the name itself exactly when it is plain; its own pointer goes backwards. */
  ghost predicate Carries(p: seq<byte>, start: nat, end: nat, name: Name) {
    && Decoded(p, start, MAX_NAME_LEN + 1) == Some((Join(Labels(name)), NameEnd(p, start)))
    && (Join(Labels(name)) == name <==> Plain(name))
    && (Plain(name) ==> NameEnd(p, start) == end)
    && PointsBelow(p, start, start)
  }

  lemma {:induction false} AppendedCarries(msg: seq<byte>, name: Name, bytes: seq<byte>, later: seq<byte>)
    requires Appended(msg, |msg|, name, bytes) && |name| <= MAX_NAME_LEN
    ensures Carries(msg + bytes + later, |msg|, |msg + bytes|, name)
  {
    var h: nat :| h <= |msg| && Reads(msg + bytes, |msg|, Labels(name), h);
    LabelsShorter(name);
    JoinLabels(name);
    ReadsExtend(msg + bytes, later, |msg|, Labels(name), h);
    DecodedIs(msg + bytes + later, |msg|, MAX_NAME_LEN + 1, Labels(name), h);
    ReadsEnds(msg + bytes, |msg|, Labels(name), h);
    FieldExtend(msg + bytes, later, |msg|, |msg|);
  }

  /** A plain name is decoded into any output with room for it and its terminator. */
  lemma {:induction false} AppendedDecodes(msg: seq<byte>, name: Name, bytes: seq<byte>, later: seq<byte>, outLen: nat)
    requires Appended(msg, |msg|, name, bytes) && Plain(name) && |name| < outLen
    ensures Decoded(msg + bytes + later, |msg|, outLen) == Some((name, |msg + bytes|))
  {
    var h: nat :| h <= |msg| && Reads(msg + bytes, |msg|, Labels(name), h);
    JoinLabels(name);
    ReadsExtend(msg + bytes, later, |msg|, Labels(name), h);
    DecodedIs(msg + bytes + later, |msg|, outLen, Labels(name), h);
    ReadsEnds(msg + bytes, |msg|, Labels(name), h);
    FieldExtend(msg + bytes, later, |msg|, |msg|);
  }

  /** Octets written as they are, then a name written through the table. */
  datatype Piece = Piece(filler: seq<byte>, name: Name)

  datatype Field = Field(start: nat, end: nat)

  /** Write the pieces one after another; stop with None at the first that does not fit. */
  function EncodeAll(msg: seq<byte>, cap: nat, pieces: seq<Piece>, table: Table): (r: Option<(seq<byte>, seq<Field>)>)
    decreases |pieces|
  {
    if pieces == [] then Some((msg, []))
    else
      var start := msg + pieces[0].filler;
      match Encode(|start|, cap, pieces[0].name, table, MAX_LABELS)
      case Encoded(bytes, table') =>
        (match EncodeAll(start + bytes, cap, pieces[1..], table')
         case Some((p, fields)) => Some((p, [Field(|start|, |start + bytes|)] + fields))
         case None => None)
      case _ => None
  }

  lemma {:induction false} EncodeAllCarries(msg: seq<byte>, cap: nat, pieces: seq<Piece>, table: Table,
                                            p: seq<byte>, fields: seq<Field>)
    requires cap <= 0x4000 && TableOk(msg, table)
    requires forall x :: x in pieces ==> NoNul(x.name)
    requires EncodeAll(msg, cap, pieces, table) == Some((p, fields))
    ensures msg <= p && |fields| == |pieces|
    ensures forall i :: 0 <= i < |fields| ==> Carries(p, fields[i].start, fields[i].end, pieces[i].name)
    decreases |pieces|
  {
    hide TableOk, Appended, Carries, NoNul, Encode;
    if pieces != [] {
      var start, name := msg + pieces[0].filler, pieces[0].name;
      assert pieces[0] in pieces;
      TableOkExtend(msg, pieces[0].filler, table);
      EncodeReads(start, cap, name, table, MAX_LABELS);
      var e := Encode(|start|, cap, name, table, MAX_LABELS);
      var rest := EncodeAll(start + e.bytes, cap, pieces[1..], e.table);
      EncodeAllCarries(start + e.bytes, cap, pieces[1..], e.table, rest.value.0, rest.value.1);
      assert p == start + e.bytes + p[|start + e.bytes|..];
      EncodeFits(|start|, cap, name, table, MAX_LABELS);
      AppendedCarries(start, name, e.bytes, p[|start + e.bytes|..]);
      assert fields[1..] == rest.value.1;
    }
  }

  lemma {:induction false} EncodeFits(j: nat, cap: nat, name: Name, table: Table, limit: nat)
    requires Encode(j, cap, name, table, limit).Encoded?
    ensures |name| <= MAX_NAME_LEN
  {
  }

  /** What is written lies inside memory of this size. */
  predicate Fits(e: Encoding, start: nat, size: nat) {
    e.Encoded? ==> start + |e.bytes| <= size
  }

  /** One octet more than the buffer has is always enough. */
  lemma {:induction false} OneMoreIsEnough(j: nat, cap: nat, name: Name, table: Table, limit: nat)
    ensures Fits(Labelled(j, cap, name, table, limit), j, cap + 1)
            && Fits(Encode(j, cap, name, table, limit), j, cap + 1)
    decreases |name|
  {
    hide TableGet, TableAdd;
    var d := FirstDot(name);
    if TableGet(table, name) < 0 && d < |name| {
      OneMoreIsEnough(j + d + 1, cap, name[d + 1..], TableAdd(table, name, j, limit), limit);
    }
  }

  /** Some suffix of the name is in the table, so that its encoding ends with a pointer. */
  predicate EndsInPointer(j: nat, name: Name, table: Table, limit: nat)
    decreases |name|
  {
    var d := FirstDot(name);
    TableGet(table, name) >= 0 ||
    (d < |name| && EndsInPointer(j + d + 1, name[d + 1..], TableAdd(table, name, j, limit), limit))
  }

  /** Where an encoding ends: before the end of the buffer after a pointer, and else after a zero, which the empty label
      behind a trailing dot is itself. */
  lemma {:induction false} EndsWhere(j: nat, cap: nat, name: Name, table: Table, limit: nat)
    requires Labelled(j, cap, name, table, limit).Encoded? && NoNul(name)
    ensures var end := j + |Labelled(j, cap, name, table, limit).bytes|;
            if EndsInPointer(j, name, table, limit) then end <= cap
            else j + |name| < cap && end == j + |name| + if name == [] || name[|name| - 1] == DOT then 1 else 2
    decreases |name|
  {
    hide TableGet, TableAdd, Labelled, FirstDot, LengthPrefixed, Terminated;
    EncodedLength(j, cap, name, table, limit);
    var d := FirstDot(name);
    if TableGet(table, name) < 0 {
      if d < |name| {
        EndsWhere(j + d + 1, cap, name[d + 1..], TableAdd(table, name, j, limit), limit);
      } else {
        LastLabelEnds(name);
      }
    }
  }

  /** The octets of one round of the encoder, and of the rest. */
  lemma EncodedLength(j: nat, cap: nat, name: Name, table: Table, limit: nat)
    requires Labelled(j, cap, name, table, limit).Encoded?
    ensures var n, d := |Labelled(j, cap, name, table, limit).bytes|, FirstDot(name);
            if TableGet(table, name) >= 0 then n == 2 && j + 2 <= cap
            else if d < |name| then
              var rest := Labelled(j + d + 1, cap, name[d + 1..], TableAdd(table, name, j, limit), limit);
              rest.Encoded? && n == d + 1 + |rest.bytes|
            else |name| < 64 && j + |name| < cap && n == |Terminated(LengthPrefixed(name, |name|))|
  {
    hide TableGet, TableAdd, FirstDot;
  }

  /** A single label is followed by a zero, unless it is one itself. */
  lemma LastLabelEnds(name: Name)
    requires NoNul(name) && FirstDot(name) == |name| < 64
    ensures |Terminated(LengthPrefixed(name, |name|))| == |name| + if name == [] then 1 else 2
  {
    assert LengthPrefixed(name, |name|)[|name|] == if name == [] then 0 else name[|name| - 1];
  }

  /** An encoding takes one octet more than the buffer has, for its terminating zero, if and only if it ends with a
      label that is not empty and fills the buffer; otherwise it fits. */
  lemma TerminatorBeyond(j: nat, cap: nat, name: Name, table: Table, limit: nat)
    requires Labelled(j, cap, name, table, limit).Encoded? && NoNul(name)
    ensures var end := j + |Labelled(j, cap, name, table, limit).bytes|;
            && end <= cap + 1
            && (end == cap + 1 <==>
                  !EndsInPointer(j, name, table, limit) && j + |name| + 1 == cap && name != []
                    && name[|name| - 1] != DOT)
  {
    hide Labelled, EndsInPointer;
    EndsWhere(j, cap, name, table, limit);
  }

  /** The name "a" needs three octets, and is written where there are two. */
  lemma ZeroBeyond()
    ensures var e := Labelled(0, 2, [97], [], MAX_LABELS); e.Encoded? && e.bytes == [1, 97, 0]
  {
    var name: Name := [97];
    assert FirstDot(name) == 1;
    assert LengthPrefixed(name, 1) == [1, 97];
  }

  /** Names written one after another through one compression table, whatever lies between them: each
      decodes from its own offset, in the final packet, to itself exactly when it is plain. */
  lemma CompressionRoundTrip(cap: nat, pieces: seq<Piece>, p: seq<byte>, fields: seq<Field>)
    requires cap <= 0x4000
    requires forall x :: x in pieces ==> NoNul(x.name)
    requires EncodeAll([], cap, pieces, []) == Some((p, fields))
    ensures |fields| == |pieces|
    ensures forall i :: 0 <= i < |fields| ==> Carries(p, fields[i].start, fields[i].end, pieces[i].name)
  {
    EncodeAllCarries([], cap, pieces, [], p, fields);
  }

  /** A trailing dot is lost: "a." is written as one label and decodes to "a". */
  lemma TrailingDotLost()
    ensures var name: Name := [97, DOT];
            !Plain(name) && Labels(name) == [[97]] && Join(Labels(name)) == [97]
    ensures Labelled(0, 512, [97, DOT], [], MAX_LABELS).Encoded?
            && Labelled(0, 512, [97, DOT], [], MAX_LABELS).bytes == [1, 97, 0]
    ensures Decoded([1, 97, 0], 0, 256) == Some(([97], 3))
  {
    var name: Name := [97, DOT];
    assert name[2..] == [] && name[..1] == [97];
    assert FirstDot(name[1..]) == 0 && FirstDot(name) == 1 && FirstDot([]) == 0;
    assert Labels([]) == [] && !NoEmptyLabel([]);
    assert Labels(name) == [name[..1]] + Labels(name[2..]);
    assert Labels(name) == [[97]];
    var p: seq<byte> := [1, 97, 0];
    assert p[1..2] == [97];
    assert Reads(p, 2, [], 0);
    assert Reads(p, 0, [[97]], 0);
    DecodedIs(p, 0, 256, [[97]], 0);
    assert NameEnd(p, 2) == 3;
  }

  // ------------------------------------------------------------ the encoder's loop

  /** `struct dnslabel_table`. */
  class LabelTable {
    var labels: Table

    constructor ()
      ensures labels == []
    {
      labels := [];
    }

    /** `dnslabel_table_get_pos`. */
    method GetPos(v: Name) returns (r: int)
      ensures r == TableGet(labels, v)
    {
      var i := 0;
      while i < |labels|
        invariant 0 <= i <= |labels|
        invariant TableGet(labels, v) == TableGet(labels[i..], v)
      {
        if labels[i].v == v { return labels[i].pos; }
        assert labels[i..][1..] == labels[i + 1..];
        i := i + 1;
      }
      r := -1;
    }

    /** `dnslabel_table_add`; its result is not used by any caller. */
    method Add(v: Name, pos: nat)
      modifies this
      ensures labels == TableAdd(old(labels), v, pos, MAX_LABELS)
    {
      if |labels| < MAX_LABELS {
        labels := labels + [Entry(v, pos)];
      }
    }
  }

  function Prepend(bytes: seq<byte>, e: Encoding): Encoding {
    match e
    case Encoded(b, t) => Encoded(bytes + b, t)
    case _ => e
  }

  ghost function TableOf(table: LabelTable?): Table
    reads table
  {
    if table == null then [] else table.labels
  }

  function LimitOf(table: LabelTable?): nat {
    if table == null then 0 else MAX_LABELS
  }

  lemma {:induction false} LabelledStops(j: nat, cap: nat, name: Name, table: Table, limit: nat)
    ensures var ref, d := TableGet(table, name), FirstDot(name);
            var r := Labelled(j, cap, name, table, limit);
            && (ref >= 0 ==> r == if j + 2 > cap then NoRoom else Encoded(Pointer(ref), table))
            && (ref < 0 && d > MAX_LABEL_LEN ==> r == TooLongLabel)
            && (ref < 0 && d <= MAX_LABEL_LEN && j + d + 1 > cap ==> r == NoRoom)
  {
    hide FirstDot, TableGet;
  }

  lemma {:induction false} LabelledStep(j: nat, cap: nat, name: Name, table: Table, limit: nat, written: seq<byte>)
    requires TableGet(table, name) < 0 && FirstDot(name) < |name|
    requires FirstDot(name) <= MAX_LABEL_LEN && j + FirstDot(name) + 1 <= cap
    ensures var d := FirstDot(name);
            Prepend(written, Labelled(j, cap, name, table, limit)) ==
            Prepend(written + LengthPrefixed(name, d),
                    Labelled(j + d + 1, cap, name[d + 1..], TableAdd(table, name, j, limit), limit))
  {
    hide FirstDot, TableGet, TableAdd, LengthPrefixed;
    var d := FirstDot(name);
    var rest := Labelled(j + d + 1, cap, name[d + 1..], TableAdd(table, name, j, limit), limit);
    assert Labelled(j, cap, name, table, limit) == Prepend(LengthPrefixed(name, d), rest);
    PrependTwice(written, LengthPrefixed(name, d), rest);
  }

  lemma PrependTwice(a: seq<byte>, b: seq<byte>, e: Encoding)
    ensures Prepend(a, Prepend(b, e)) == Prepend(a + b, e)
  {
    if e.Encoded? { ConcatAssoc(a, b, e.bytes); }
  }

  lemma {:induction false} LabelledLast(j: nat, cap: nat, name: Name, table: Table, limit: nat, written: seq<byte>)
    requires TableGet(table, name) < 0 && FirstDot(name) == |name| <= MAX_LABEL_LEN && j + |name| + 1 <= cap
    ensures Prepend(written, Labelled(j, cap, name, table, limit)) ==
            Encoded(Terminated(written + LengthPrefixed(name, |name|)), TableAdd(table, name, j, limit))
  {
    hide FirstDot, TableGet, TableAdd, LengthPrefixed;
    ConcatAssoc(written, LengthPrefixed(name, |name|), [0]);
  }

  /** `written` stands in the buffer from `start`, and nothing before `start` has changed. */
  ghost predicate Stands(was: seq<byte>, buf: seq<byte>, start: nat, written: seq<byte>) {
    && |was| == |buf|
    && (forall i :: 0 <= i < start && i < |buf| ==> buf[i] == was[i])
    && (written != [] ==> start + |written| <= |buf| && buf[start..start + |written|] == written)
  }

  /** What a call that returned `r` did to the buffer. */
  ghost predicate Wrote(e: Encoding, start: nat, r: int, was: seq<byte>, buf: seq<byte>) {
    && Stands(was, buf, start, [])
    && match e
       case Encoded(bytes, _) => r == start + |bytes| && Stands(was, buf, start, bytes)
       case TooLongLabel => r == -1
       case NoRoom => r == -2
  }

  lemma WroteFrom(e: Encoding, start: nat, r: int, was: seq<byte>, buf: seq<byte>, written: seq<byte>)
    requires Stands(was, buf, start, written)
    requires match e
             case Encoded(bytes, _) => r == start + |bytes| && bytes == written
             case TooLongLabel => r == -1
             case NoRoom => r == -2
    ensures Wrote(e, start, r, was, buf)
  {
  }

  lemma StandsMore(was: seq<byte>, buf: seq<byte>, start: nat, written: seq<byte>, buf': seq<byte>, more: seq<byte>)
    requires Stands(was, buf, start, written) && more != []
    requires var j := start + |written|;
             j + |more| <= |buf| && buf' == buf[..j] + more + buf[j + |more|..]
    ensures Stands(was, buf', start, written + more)
  {
    var j := start + |written|;
    assert buf'[start..j + |more|] == buf'[start..j] + buf'[j..j + |more|];
    assert buf'[start..j] == written;
  }

  method PutPointer(buf: array<byte>, j: nat, ref: nat, ghost was: seq<byte>, ghost start: nat,
                    ghost written: seq<byte>)
    requires Stands(was, buf[..], start, written) && j == start + |written| && j + 2 <= buf.Length
    modifies buf
    ensures Stands(was, buf[..], start, written + Pointer(ref))
  {
    ghost var before := buf[..];
    var two := Pointer(ref);
    buf[j], buf[j + 1] := two[0], two[1];
    assert buf[..] == before[..j] + two + before[j + 2..];
    StandsMore(was, before, start, written, buf[..], two);
  }

  /** Remember the suffix, then write its first label, length first. */
  method PutLabel(buf: array<byte>, j: nat, suffix: Name, d: nat, table: LabelTable?,
                  ghost was: seq<byte>, ghost start: nat, ghost written: seq<byte>)
    requires Stands(was, buf[..], start, written) && j == start + |written|
    requires d <= |suffix| && d < 64 && j + d + 1 <= buf.Length
    modifies buf, table
    ensures Stands(was, buf[..], start, written + LengthPrefixed(suffix, d))
    ensures TableOf(table) == TableAdd(old(TableOf(table)), suffix, j, LimitOf(table))
  {
    if table != null { table.Add(suffix, j); }
    ghost var before := buf[..];
    buf[j] := d as byte;
    forall i | 0 <= i < d { buf[j + 1 + i] := suffix[i]; }
    assert buf[..] == before[..j] + ([d as byte] + suffix[..d]) + before[j + 1 + d..];
    StandsMore(was, before, start, written, buf[..], [d as byte] + suffix[..d]);
  }

  method Terminate(buf: array<byte>, j: nat, ghost was: seq<byte>, ghost start: nat, ghost written: seq<byte>)
    returns (r: nat)
    requires Stands(was, buf[..], start, written) && written != [] && j == start + |written|
    requires start + |Terminated(written)| <= buf.Length
    modifies buf
    ensures r == start + |Terminated(written)| && Stands(was, buf[..], start, Terminated(written))
  {
    r := j;
    assert buf[j - 1] == buf[..][start..j][|written| - 1];
    if buf[j - 1] != 0 {
      ghost var before := buf[..];
      buf[j] := 0;
      assert buf[..] == before[..j] + [0] + before[j + 1..];
      StandsMore(was, before, start, written, buf[..], [0]);
      r := j + 1;
    }
  }

  /** `dnsname_to_labels`.  The terminating zero is written without a check of its own; `TerminatorBeyond` says when a
      buffer of `bufLen` octets has no room for it. */
  method DnsnameToLabels(buf: array<byte>, bufLen: nat, start: nat, name: Name, table: LabelTable?) returns (r: int)
    requires bufLen <= buf.Length
             && Fits(Encode(start, bufLen, name, TableOf(table), LimitOf(table)), start, buf.Length)
    modifies buf, table
    ensures Wrote(old(Encode(start, bufLen, name, TableOf(table), LimitOf(table))), start, r, old(buf[..]), buf[..])
    ensures var e := old(Encode(start, bufLen, name, TableOf(table), LimitOf(table)));
            e.Encoded? ==> TableOf(table) == e.table
  {
    if |name| > MAX_NAME_LEN { return -2; }
    r := PutLabels(buf, bufLen, start, name, table);
  }

  /** One round for `suffix`: either the call is over with result `r`, or one label has been written,
      which adds `more`, and `rest` remains. */
  method PutSuffix(buf: array<byte>, bufLen: nat, j: nat, suffix: Name, table: LabelTable?,
                   ghost was: seq<byte>, ghost start: nat, ghost written: seq<byte>)
    returns (r: Option<int>, rest: Name, end: nat, ghost more: seq<byte>)
    requires bufLen <= buf.Length && Stands(was, buf[..], start, written) && j == start + |written|
    requires Fits(Prepend(written, Labelled(j, bufLen, suffix, TableOf(table), LimitOf(table))), start, buf.Length)
    modifies buf, table
    ensures var whole := Prepend(written, old(Labelled(j, bufLen, suffix, TableOf(table), LimitOf(table))));
            if r.Some? then
              Wrote(whole, start, r.value, was, buf[..]) && (whole.Encoded? ==> TableOf(table) == whole.table)
            else
              && |rest| < |suffix| && end == j + |more|
              && Stands(was, buf[..], start, written + more)
              && whole == Prepend(written + more, Labelled(end, bufLen, rest, TableOf(table), LimitOf(table)))
  {
    hide Labelled, LengthPrefixed, Terminated, FirstDot, TableGet, TableAdd, Pointer, Stands, Wrote;
    ghost var t, limit := TableOf(table), LimitOf(table);
    ghost var whole := Prepend(written, Labelled(j, bufLen, suffix, t, limit));
    rest, end, more := suffix, j, [];
    LabelledStops(j, bufLen, suffix, t, limit);
    var ref := -1;
    if table != null { ref := table.GetPos(suffix); } else { EmptyTable(suffix); }
    var d := FirstDot(suffix);
    if ref >= 0 && j + 2 <= bufLen {
      PutPointer(buf, j, ref, was, start, written);
      WroteFrom(whole, start, j + 2, was, buf[..], written + Pointer(ref));
      r := Some(j + 2);
    } else if ref >= 0 || d > MAX_LABEL_LEN || j + d + 1 > bufLen {
      r := Some(if ref < 0 && d > MAX_LABEL_LEN then -1 else -2);
      WroteFrom(whole, start, r.value, was, buf[..], written);
    } else {
      PutLabel(buf, j, suffix, d, table, was, start, written);
      more := LengthPrefixed(suffix, d);
      end := j + d + 1;
      if d == |suffix| {
        LabelledLast(j, bufLen, suffix, t, limit, written);
        var last := Terminate(buf, end, was, start, written + more);
        WroteFrom(whole, start, last, was, buf[..], whole.bytes);
        r := Some(last);
      } else {
        LabelledStep(j, bufLen, suffix, t, limit, written);
        rest := suffix[d + 1..];
        r := None;
      }
    }
  }

  /** The loop over the labels of the name. */
  method PutLabels(buf: array<byte>, bufLen: nat, start: nat, name: Name, table: LabelTable?) returns (r: int)
    requires bufLen <= buf.Length
             && Fits(Labelled(start, bufLen, name, TableOf(table), LimitOf(table)), start, buf.Length)
    modifies buf, table
    ensures Wrote(old(Labelled(start, bufLen, name, TableOf(table), LimitOf(table))), start, r, old(buf[..]), buf[..])
    ensures var e := old(Labelled(start, bufLen, name, TableOf(table), LimitOf(table)));
            e.Encoded? ==> TableOf(table) == e.table
  {
    hide *;
    ghost var was, limit := buf[..], LimitOf(table);
    ghost var whole := Labelled(start, bufLen, name, TableOf(table), limit);
    ghost var written: seq<byte> := [];
    StandsStart(was, start, whole);
    var j, suffix := start, name;
    while true
      invariant j == start + |written|
      invariant Stands(was, buf[..], start, written)
      invariant whole == Prepend(written, Labelled(j, bufLen, suffix, TableOf(table), limit))
      decreases |suffix|
    {
      var done, rest, end, more := PutSuffix(buf, bufLen, j, suffix, table, was, start, written);
      if done.Some? { return done.value; }
      written := written + more;
      j, suffix := end, rest;
    }
  }

  lemma StandsStart(was: seq<byte>, start: nat, whole: Encoding)
    ensures Stands(was, was, start, []) && Prepend([], whole) == whole
  {
  }

  lemma EmptyTable(v: Name)
    ensures TableGet([], v) == -1
  {
  }
}
