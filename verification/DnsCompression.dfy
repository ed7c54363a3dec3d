/** What compression is for: a name, or the end of one, that is in the message already is not written again. */
module DnsCompression {
  import opened Common
  import opened DnsName

  // ------------------------------------------------------------ every suffix is noted

  /** `s` is what is left of a name when some of its first labels are taken off. */
  predicate SuffixOf(s: Name, name: Name)
    decreases |name|
  {
    s == name || (FirstDot(name) < |name| && SuffixOf(s, name[FirstDot(name) + 1..]))
  }

  /** Every suffix of a name is in the table. */
  predicate Noted(table: Table, name: Name)
    decreases |name|
  {
    TableGet(table, name) >= 0 && (FirstDot(name) == |name| || Noted(table, name[FirstDot(name) + 1..]))
  }

  /** A table into which every suffix has gone that was written. */
  ghost predicate Closed(table: Table) {
    forall e :: e in table ==> Noted(table, e.v)
  }

  lemma {:induction false} NotedSuffix(table: Table, name: Name, s: Name)
    requires Noted(table, name) && SuffixOf(s, name)
    ensures TableGet(table, s) >= 0
    decreases |name|
  {
    if s != name { NotedSuffix(table, name[FirstDot(name) + 1..], s); }
  }

  /** What is found in a table is found at the same place when more has been noted. */
  lemma {:induction false} FoundStays(table: Table, more: Table, v: Name)
    requires TableGet(table, v) >= 0
    ensures TableGet(table + more, v) == TableGet(table, v)
    decreases |table|
  {
    if table[0].v != v {
      FoundStays(table[1..], more, v);
      assert (table + more)[1..] == table[1..] + more;
    } else {
      assert (table + more)[0] == table[0];
    }
  }

  lemma {:induction false} FoundLast(table: Table, v: Name, pos: nat)
    requires TableGet(table, v) < 0
    ensures TableGet(table + [Entry(v, pos)], v) == pos
    decreases |table|
  {
    var longer := table + [Entry(v, pos)];
    if table == [] {
      assert longer[0] == Entry(v, pos);
    } else {
      assert longer[0] == table[0] && longer[1..] == table[1..] + [Entry(v, pos)];
      assert table[0] in table;
      FoundLast(table[1..], v, pos);
    }
  }

  lemma {:induction false} NotedStays(table: Table, more: Table, name: Name)
    requires Noted(table, name)
    ensures Noted(table + more, name)
    decreases |name|
  {
    FoundStays(table, more, name);
    if FirstDot(name) < |name| { NotedStays(table, more, name[FirstDot(name) + 1..]); }
  }

  /** The table only grows, and if it is not full in the end, it has noted every suffix that was written. */
  lemma {:induction false} LabelledGrows(j: nat, cap: nat, name: Name, table: Table, limit: nat)
    requires Labelled(j, cap, name, table, limit).Encoded?
    ensures var t := Labelled(j, cap, name, table, limit).table;
            |table| <= |t| && t == table + t[|table|..]
    decreases |name|
  {
    hide TableGet, FirstDot, Labelled, LengthPrefixed, Terminated, Pointer;
    LabelledCases(j, cap, name, table, limit);
    var d, table1 := FirstDot(name), TableAdd(table, name, j, limit);
    if TableGet(table, name) < 0 && d < |name| {
      LabelledGrows(j + d + 1, cap, name[d + 1..], table1, limit);
      var t := Labelled(j, cap, name, table, limit).table;
      assert t[..|table1|] == table1 && table1[..|table|] == table;
      assert t[..|table|] == table1[..|table|];
    }
  }

  /** Where the suffixes of a name that was written at `j` are found afterwards: where they were noted before, and else
      where their first label stands. */
  ghost predicate FoundAt(table: Table, table': Table, name: Name, j: nat)
    decreases |name|
  {
    if TableGet(table, name) >= 0 then TableGet(table', name) == TableGet(table, name)
    else
      && TableGet(table', name) == j
      && (FirstDot(name) == |name|
          || FoundAt(table, table', name[FirstDot(name) + 1..], j + FirstDot(name) + 1))
  }

  /** One more entry, for a longer name, changes nothing about a lookup. */
  lemma {:induction false} LongerOther(table: Table, v: Name, pos: nat, name: Name)
    requires |name| < |v|
    ensures TableGet(table + [Entry(v, pos)], name) == TableGet(table, name)
    decreases |table|
  {
    var longer := table + [Entry(v, pos)];
    if table == [] {
      assert longer[0] == Entry(v, pos) && longer[1..] == [];
    } else {
      assert longer[0] == table[0] && longer[1..] == table[1..] + [Entry(v, pos)];
      LongerOther(table[1..], v, pos, name);
    }
  }

  lemma {:induction false} FoundAtLess(table: Table, v: Name, pos: nat, table': Table, name: Name, j: nat)
    requires FoundAt(table + [Entry(v, pos)], table', name, j) && |name| < |v|
    ensures FoundAt(table, table', name, j)
    decreases |name|
  {
    LongerOther(table, v, pos, name);
    if TableGet(table, name) < 0 && FirstDot(name) < |name| {
      FoundAtLess(table, v, pos, table', name[FirstDot(name) + 1..], j + FirstDot(name) + 1);
    }
  }

  lemma FoundAtCons(table: Table, table': Table, name: Name, j: nat)
    requires TableGet(table, name) < 0 && TableGet(table', name) == j
    requires FirstDot(name) < |name| ==> FoundAt(table, table', name[FirstDot(name) + 1..], j + FirstDot(name) + 1)
    ensures FoundAt(table, table', name, j)
  {
    hide TableGet, FirstDot;
  }

  lemma {:induction false} LabelledFound(j: nat, cap: nat, name: Name, table: Table, limit: nat)
    requires Labelled(j, cap, name, table, limit).Encoded? && |Labelled(j, cap, name, table, limit).table| < limit
    ensures FoundAt(table, Labelled(j, cap, name, table, limit).table, name, j)
    decreases |name|
  {
    hide TableGet, FirstDot, Labelled, LengthPrefixed, Terminated, Pointer;
    LabelledCases(j, cap, name, table, limit);
    if TableGet(table, name) < 0 {
      hide FoundAt;
      if FirstDot(name) < |name| {
        LabelledFoundCons(j, cap, name, table, limit);
      } else {
        FoundLast(table, name, j);
        FoundAtCons(table, table + [Entry(name, j)], name, j);
      }
    }
  }

  lemma {:induction false} LabelledFoundCons(j: nat, cap: nat, name: Name, table: Table, limit: nat)
    requires Labelled(j, cap, name, table, limit).Encoded? && |Labelled(j, cap, name, table, limit).table| < limit
    requires TableGet(table, name) < 0 && FirstDot(name) < |name|
    ensures FoundAt(table, Labelled(j, cap, name, table, limit).table, name, j)
    decreases |name|, 0
  {
    hide *;
    LabelledCases(j, cap, name, table, limit);
    var d, t, rest := FirstDot(name), Labelled(j, cap, name, table, limit).table, name[FirstDot(name) + 1..];
    LabelledGrows(j, cap, name, table, limit);
    AddsOne(table, name, j, limit);
    var added := table + [Entry(name, j)];
    LabelledGrows(j + d + 1, cap, rest, added, limit);
    FoundLast(table, name, j);
    FoundStays(added, t[|added|..], name);
    LabelledFound(j + d + 1, cap, rest, added, limit);
    FoundAtLess(table, name, j, t, rest, j + d + 1);
    FoundAtCons(table, t, name, j);
  }

  lemma AddsOne(table: Table, v: Name, pos: nat, limit: nat)
    requires |table| < limit
    ensures TableAdd(table, v, pos, limit) == table + [Entry(v, pos)]
  {
  }

  /** Every entry knows its suffixes, except those for names that are longer than `name`. */
  ghost predicate ClosedBelow(table: Table, name: Name) {
    forall e :: e in table ==> Noted(table, e.v) || |e.v| > |name|
  }

  lemma ClosedBelowNext(table: Table, name: Name, pos: nat, rest: Name)
    requires ClosedBelow(table, name) && |rest| < |name|
    ensures ClosedBelow(table + [Entry(name, pos)], rest)
  {
    hide Noted;
    forall e | e in table && |e.v| <= |name| ensures Noted(table + [Entry(name, pos)], e.v) {
      NotedStays(table, [Entry(name, pos)], e.v);
    }
  }

  lemma NotedCons(table: Table, name: Name)
    requires TableGet(table, name) >= 0
    requires FirstDot(name) < |name| ==> Noted(table, name[FirstDot(name) + 1..])
    ensures Noted(table, name)
  {
    hide TableGet, FirstDot;
  }

  /** What is new in a table knows its suffixes. */
  ghost predicate NewNoted(table: Table, table': Table) {
    forall e :: e in table' ==> e in table || Noted(table', e.v)
  }

  lemma NewNotedCons(table: Table, e: Entry, table': Table)
    requires NewNoted(table + [e], table') && Noted(table', e.v)
    ensures NewNoted(table, table')
  {
    hide Noted;
  }

  lemma {:induction false} LabelledNotes(j: nat, cap: nat, name: Name, table: Table, limit: nat)
    requires Labelled(j, cap, name, table, limit).Encoded? && |Labelled(j, cap, name, table, limit).table| < limit
    requires ClosedBelow(table, name)
    ensures var t := Labelled(j, cap, name, table, limit).table; Noted(t, name) && NewNoted(table, t)
    decreases |name|
  {
    hide TableGet, FirstDot, Labelled, LengthPrefixed, Terminated, Pointer, Noted;
    LabelledCases(j, cap, name, table, limit);
    if TableGet(table, name) < 0 {
      LabelledGrows(j, cap, name, table, limit);
      var d, t, added := FirstDot(name), Labelled(j, cap, name, table, limit).table, table + [Entry(name, j)];
      FoundLast(table, name, j);
      if d < |name| {
        var rest := name[d + 1..];
        ClosedBelowNext(table, name, j, rest);
        hide ClosedBelow, NewNoted;
        LabelledGrows(j + d + 1, cap, rest, added, limit);
        FoundStays(added, t[|added|..], name);
        LabelledNotes(j + d + 1, cap, rest, added, limit);
        NotedCons(t, name);
        NewNotedCons(table, Entry(name, j), t);
      } else {
        NotedCons(t, name);
      }
    }
  }

  /** One call of the encoder that leaves the table not full: every suffix of the name is found in it afterwards, at
      the offset of its label or where it was noted before, and the same goes for the suffixes of those. */
  lemma SuffixesNoted(j: nat, cap: nat, name: Name, table: Table, limit: nat)
    requires Encode(j, cap, name, table, limit).Encoded? && |Encode(j, cap, name, table, limit).table| < limit
    requires Closed(table)
    ensures var t := Encode(j, cap, name, table, limit).table;
            FoundAt(table, t, name, j) && Noted(t, name) && Closed(t)
  {
    hide Labelled, Noted, FoundAt;
    LabelledFound(j, cap, name, table, limit);
    LabelledNotes(j, cap, name, table, limit);
    LabelledGrows(j, cap, name, table, limit);
    var t := Encode(j, cap, name, table, limit).table;
    forall e | e in table ensures Noted(t, e.v) {
      NotedStays(table, t[|table|..], e.v);
    }
  }

  // ------------------------------------------------------------ which names can be written

  /** No label is longer than the wire format allows. */
  predicate LabelsFit(name: Name)
    decreases |name|
  {
    FirstDot(name) <= 63 && (FirstDot(name) == |name| || LabelsFit(name[FirstDot(name) + 1..]))
  }

  predicate Encodable(name: Name) {
    |name| <= 255 && LabelsFit(name)
  }

  lemma {:induction false} LabelledWorks(j: nat, cap: nat, name: Name, table: Table, limit: nat)
    requires LabelsFit(name) && j + |name| + 2 <= cap
    ensures var e := Labelled(j, cap, name, table, limit); e.Encoded? && |e.bytes| <= |name| + 2
    decreases |name|
  {
    hide TableGet, FirstDot, TableAdd;
    var d := FirstDot(name);
    if d < |name| { LabelledWorks(j + d + 1, cap, name[d + 1..], TableAdd(table, name, j, limit), limit); }
  }

  /** A name whose labels fit is written wherever there is room for it without compression. */
  lemma EncodeWorks(j: nat, cap: nat, name: Name, table: Table, limit: nat)
    requires Encodable(name) && j + |name| + 2 <= cap
    ensures var e := Encode(j, cap, name, table, limit); e.Encoded? && |e.bytes| <= |name| + 2
  {
    LabelledWorks(j, cap, name, table, limit);
  }

  lemma {:induction false} LabelledExactly(j: nat, cap: nat, name: Name, table: Table, limit: nat)
    requires forall e :: e in table ==> |e.v| > |name|
    ensures Labelled(j, cap, name, table, limit).Encoded? <==> LabelsFit(name) && j + |name| + 1 <= cap
    decreases |name|
  {
    hide FirstDot, TableGet, LengthPrefixed, Terminated, Pointer;
    assert TableGet(table, name) < 0;
    var d := FirstDot(name);
    if d < |name| { LabelledExactly(j + d + 1, cap, name[d + 1..], TableAdd(table, name, j, limit), limit); }
  }

  /** Without anything to point to, a name is written if and only if it has at most 255 octets, its labels have at most
      63, and it fits in the buffer with the length of its first label. */
  lemma EncodesExactly(j: nat, cap: nat, name: Name, limit: nat)
    ensures Encode(j, cap, name, [], limit).Encoded? <==> Encodable(name) && j + |name| + 1 <= cap
  {
    hide Labelled;
    LabelledExactly(j, cap, name, [], limit);
  }

  /** With nothing to point to, and room, the only obstacle is a label that is too long. */
  lemma {:induction false} LabelledTooLong(j: nat, cap: nat, name: Name, table: Table, limit: nat)
    requires (forall e :: e in table ==> |e.v| > |name|) && !LabelsFit(name) && j + |name| + 1 <= cap
    ensures Labelled(j, cap, name, table, limit) == TooLongLabel
    decreases |name|
  {
    hide FirstDot, TableGet, LengthPrefixed, Terminated, Pointer;
    assert TableGet(table, name) < 0;
    var d := FirstDot(name);
    if d < |name| && d <= 63 {
      LabelledTooLong(j + d + 1, cap, name[d + 1..], TableAdd(table, name, j, limit), limit);
    }
  }

  // ------------------------------------------------------------ what is noted is not written again

  /** A name of which a suffix has been noted takes no more room than the rest of it and a pointer. */
  lemma {:induction false} LabelledShort(j: nat, cap: nat, name: Name, table: Table, limit: nat, s: Name)
    requires Labelled(j, cap, name, table, limit).Encoded? && SuffixOf(s, name) && TableGet(table, s) >= 0
    ensures EndsInPointer(j, name, table, limit)
    ensures |Labelled(j, cap, name, table, limit).bytes| <= |name| - |s| + 2
    decreases |name|
  {
    hide TableGet, FirstDot, Labelled, LengthPrefixed, Terminated, Pointer;
    LabelledCases(j, cap, name, table, limit);
    SuffixShorter(s, name);
    if TableGet(table, name) < 0 {
      var d := FirstDot(name);
      var rest := name[d + 1..];
      hide SuffixOf;
      if |table| < limit { FoundStays(table, [Entry(name, j)], s); }
      LabelledShort(j + d + 1, cap, rest, TableAdd(table, name, j, limit), limit, s);
    }
  }

  lemma {:induction false} SuffixShorter(s: Name, name: Name)
    requires SuffixOf(s, name)
    ensures |s| <= |name|
    decreases |name|
  {
    if s != name { SuffixShorter(s, name[FirstDot(name) + 1..]); }
  }

  /** Every place that is noted can be pointed to. */
  ghost predicate Reachable(table: Table) {
    forall e :: e in table ==> e.pos < 0x4000
  }

  lemma {:induction false} LabelledReachable(j: nat, cap: nat, name: Name, table: Table, limit: nat)
    requires Labelled(j, cap, name, table, limit).Encoded? && Reachable(table) && cap <= 0x4000
    ensures Reachable(Labelled(j, cap, name, table, limit).table)
    decreases |name|
  {
    hide TableGet, FirstDot, Labelled, LengthPrefixed, Terminated, Pointer;
    LabelledCases(j, cap, name, table, limit);
    var d := FirstDot(name);
    if TableGet(table, name) < 0 && d < |name| {
      LabelledReachable(j + d + 1, cap, name[d + 1..], TableAdd(table, name, j, limit), limit);
    }
  }

  lemma {:induction false} FoundReachable(table: Table, v: Name)
    requires Reachable(table) && TableGet(table, v) >= 0
    ensures TableGet(table, v) < 0x4000
  {
    var e :| e in table && e.v == v && e.pos == TableGet(table, v);
  }

  // ------------------------------------------------------------ whole messages

  /** The table after some pieces have been written. */
  function TableAfter(msg: seq<byte>, cap: nat, pieces: seq<Piece>, table: Table): (r: Table)
    decreases |pieces|
  {
    if pieces == [] then table
    else
      var start := msg + pieces[0].filler;
      match Encode(|start|, cap, pieces[0].name, table, MAX_LABELS)
      case Encoded(bytes, table') => TableAfter(start + bytes, cap, pieces[1..], table')
      case _ => table
  }

  /** One piece, and the rest. */
  lemma EncodeAllCons(msg: seq<byte>, cap: nat, pieces: seq<Piece>, table: Table, p: seq<byte>, fields: seq<Field>)
    requires pieces != [] && EncodeAll(msg, cap, pieces, table) == Some((p, fields))
    ensures var start := msg + pieces[0].filler;
            var e := Encode(|start|, cap, pieces[0].name, table, MAX_LABELS);
            && e.Encoded? && fields != [] && fields[0] == Field(|start|, |start + e.bytes|)
            && EncodeAll(start + e.bytes, cap, pieces[1..], e.table) == Some((p, fields[1..]))
            && TableAfter(msg, cap, pieces, table) == TableAfter(start + e.bytes, cap, pieces[1..], e.table)
  {
    hide Encode;
  }

  lemma {:induction false} EncodeAllGrows(msg: seq<byte>, cap: nat, pieces: seq<Piece>, table: Table, p: seq<byte>,
                                          fields: seq<Field>)
    requires EncodeAll(msg, cap, pieces, table) == Some((p, fields))
    ensures |fields| == |pieces| && msg <= p
    ensures var t := TableAfter(msg, cap, pieces, table); |table| <= |t| && t == table + t[|table|..]
    decreases |pieces|
  {
    hide EncodeAll, Encode, TableAfter;
    if pieces != [] {
      EncodeAllCons(msg, cap, pieces, table, p, fields);
      var start := msg + pieces[0].filler;
      var e := Encode(|start|, cap, pieces[0].name, table, MAX_LABELS);
      EncodeGrows(|start|, cap, pieces[0].name, table);
      EncodeAllGrows(start + e.bytes, cap, pieces[1..], e.table, p, fields[1..]);
      var t := TableAfter(msg, cap, pieces, table);
      assert t[..|table|] == t[..|e.table|][..|table|] == table;
    } else {
      EncodeAllNone(msg, cap, table);
    }
  }

  lemma EncodeAllNone(msg: seq<byte>, cap: nat, table: Table)
    ensures EncodeAll(msg, cap, [], table) == Some((msg, [])) && TableAfter(msg, cap, [], table) == table
  {
  }

  lemma EncodeGrows(j: nat, cap: nat, name: Name, table: Table)
    requires Encode(j, cap, name, table, MAX_LABELS).Encoded?
    ensures var t := Encode(j, cap, name, table, MAX_LABELS).table; |table| <= |t| && t == table + t[|table|..]
  {
    hide Labelled;
    LabelledGrows(j, cap, name, table, MAX_LABELS);
  }

  /** A name of which a suffix is in the table, in the middle of a message. */
  lemma {:induction false} LaterShort(msg: seq<byte>, cap: nat, pieces: seq<Piece>, table: Table, p: seq<byte>,
                                      fields: seq<Field>, k: nat, s: Name)
    requires EncodeAll(msg, cap, pieces, table) == Some((p, fields)) && k < |pieces|
    requires SuffixOf(s, pieces[k].name) && TableGet(table, s) >= 0
    ensures k < |fields| && fields[k].end - fields[k].start <= |pieces[k].name| - |s| + 2
    ensures s == pieces[k].name && TableGet(table, s) < 0x4000 ==>
              && fields[k].end == fields[k].start + 2 <= |p|
              && p[fields[k].start..fields[k].end] == Pointer(TableGet(table, s))
    decreases |pieces|
  {
    hide EncodeAll, Encode, TableGet, SuffixOf, Pointer;
    EncodeAllCons(msg, cap, pieces, table, p, fields);
    var start := msg + pieces[0].filler;
    var e := Encode(|start|, cap, pieces[0].name, table, MAX_LABELS);
    EncodeGrows(|start|, cap, pieces[0].name, table);
    if k == 0 {
      EncodeShort(|start|, cap, pieces[0].name, table, s);
      EncodeAllGrows(start + e.bytes, cap, pieces[1..], e.table, p, fields[1..]);
      assert start + e.bytes <= p;
      assert p[|start|..|start + e.bytes|] == e.bytes;
    } else {
      FoundStays(table, e.table[|table|..], s);
      LaterShort(start + e.bytes, cap, pieces[1..], e.table, p, fields[1..], k - 1, s);
    }
  }

  lemma EncodeShort(j: nat, cap: nat, name: Name, table: Table, s: Name)
    requires Encode(j, cap, name, table, MAX_LABELS).Encoded? && SuffixOf(s, name) && TableGet(table, s) >= 0
    ensures var e := Encode(j, cap, name, table, MAX_LABELS);
            |e.bytes| <= |name| - |s| + 2 && (s == name ==> e.bytes == Pointer(TableGet(table, s)))
  {
    hide Labelled, TableGet, SuffixOf, Pointer;
    LabelledShort(j, cap, name, table, MAX_LABELS, s);
    LabelledCases(j, cap, name, table, MAX_LABELS);
  }

  /** Where a name that has been written is noted: at its own field, or where its field points. */
  ghost predicate NotedFor(p: seq<byte>, f: Field, ref: int) {
    && 0 <= ref < 0x4000 && f.start <= f.end <= |p|
    && (ref == f.start || (f.end == f.start + 2 && p[f.start..f.end] == Pointer(ref)))
  }

  lemma {:induction false} EarlierNoted(msg: seq<byte>, cap: nat, pieces: seq<Piece>, table: Table, p: seq<byte>,
                                        fields: seq<Field>, i: nat)
    requires EncodeAll(msg, cap, pieces, table) == Some((p, fields)) && i < |pieces|
    requires cap <= 0x4000 && Closed(table) && Reachable(table) && |TableAfter(msg, cap, pieces, table)| < MAX_LABELS
    ensures Noted(TableAfter(msg, cap, pieces, table), pieces[i].name) && |fields| == |pieces|
    ensures NotedFor(p, fields[i], TableGet(TableAfter(msg, cap, pieces, table), pieces[i].name))
    decreases |pieces|
  {
    hide EncodeAll, Encode, TableGet, Noted, Closed, Reachable, FoundAt, Pointer, TableAfter;
    EncodeAllCons(msg, cap, pieces, table, p, fields);
    var start, name := msg + pieces[0].filler, pieces[0].name;
    var e := Encode(|start|, cap, name, table, MAX_LABELS);
    var t := TableAfter(msg, cap, pieces, table);
    EncodeAllGrows(start + e.bytes, cap, pieces[1..], e.table, p, fields[1..]);
    SuffixesNoted(|start|, cap, name, table, MAX_LABELS);
    EncodeReachable(|start|, cap, name, table);
    if i == 0 {
      NotedStays(e.table, t[|e.table|..], name);
      FirstNoted(|start|, cap, name, table);
      FoundStays(e.table, t[|e.table|..], name);
      assert p[|start|..|start + e.bytes|] == e.bytes;
    } else {
      EarlierNoted(start + e.bytes, cap, pieces[1..], e.table, p, fields[1..], i - 1);
    }
  }

  lemma EncodeReachable(j: nat, cap: nat, name: Name, table: Table)
    requires Encode(j, cap, name, table, MAX_LABELS).Encoded? && Reachable(table) && cap <= 0x4000
    ensures Reachable(Encode(j, cap, name, table, MAX_LABELS).table)
  {
    hide Labelled, Reachable;
    LabelledReachable(j, cap, name, table, MAX_LABELS);
  }

  /** The name itself is noted where it was, and then its field is a pointer to there, or where it is now. */
  lemma FirstNoted(j: nat, cap: nat, name: Name, table: Table)
    requires Encode(j, cap, name, table, MAX_LABELS).Encoded? && Reachable(table) && cap <= 0x4000
    requires FoundAt(table, Encode(j, cap, name, table, MAX_LABELS).table, name, j)
    ensures var e := Encode(j, cap, name, table, MAX_LABELS);
            var ref := TableGet(e.table, name);
            0 <= ref < 0x4000 && (ref == j || e.bytes == Pointer(ref))
  {
    hide Labelled, TableGet, Pointer, Reachable;
    LabelledCases(j, cap, name, table, MAX_LABELS);
    if TableGet(table, name) >= 0 { FoundReachable(table, name); }
  }

  /** A message is written up to a piece, and then on. */
  lemma {:induction false} EncodeAllSplit(msg: seq<byte>, cap: nat, pieces: seq<Piece>, table: Table, p: seq<byte>,
                                          fields: seq<Field>, k: nat)
    returns (m: seq<byte>)
    requires EncodeAll(msg, cap, pieces, table) == Some((p, fields)) && k <= |pieces|
    ensures |fields| == |pieces| && m <= p && EncodeAll(msg, cap, pieces[..k], table) == Some((m, fields[..k]))
    ensures EncodeAll(m, cap, pieces[k..], TableAfter(msg, cap, pieces[..k], table)) == Some((p, fields[k..]))
    decreases |pieces|
  {
    hide EncodeAll, Encode, TableAfter;
    EncodeAllGrows(msg, cap, pieces, table, p, fields);
    if k == 0 {
      m := msg;
      EncodeAllNone(msg, cap, table);
      assert pieces[..0] == [] && pieces[0..] == pieces && fields[..0] == [] && fields[0..] == fields;
    } else {
      EncodeAllCons(msg, cap, pieces, table, p, fields);
      var start := msg + pieces[0].filler;
      var e := Encode(|start|, cap, pieces[0].name, table, MAX_LABELS);
      m := EncodeAllSplit(start + e.bytes, cap, pieces[1..], e.table, p, fields[1..], k - 1);
      assert pieces[..k][1..] == pieces[1..][..k - 1] && pieces[k..] == pieces[1..][k - 1..];
      assert fields[k..] == fields[1..][k - 1..] && fields[..k] == [fields[0]] + fields[1..][..k - 1];
      EncodeAllJoin(msg, cap, pieces[..k], table, m, fields[1..][..k - 1]);
    }
  }

  lemma EncodeAllJoin(msg: seq<byte>, cap: nat, pieces: seq<Piece>, table: Table, m: seq<byte>, fields: seq<Field>)
    requires pieces != []
    requires var start := msg + pieces[0].filler;
             var e := Encode(|start|, cap, pieces[0].name, table, MAX_LABELS);
             e.Encoded? && EncodeAll(start + e.bytes, cap, pieces[1..], e.table) == Some((m, fields))
    ensures var start := msg + pieces[0].filler;
            var e := Encode(|start|, cap, pieces[0].name, table, MAX_LABELS);
            && EncodeAll(msg, cap, pieces, table) == Some((m, [Field(|start|, |start + e.bytes|)] + fields))
            && TableAfter(msg, cap, pieces, table) == TableAfter(start + e.bytes, cap, pieces[1..], e.table)
  {
    hide Encode;
  }

  lemma NoneNoted()
    ensures Closed([]) && Reachable([])
  {
  }

  /** A suffix of an earlier name is noted when a later one is written. */
  lemma EarlierShared(cap: nat, pieces: seq<Piece>, p: seq<byte>, fields: seq<Field>, i: nat, k: nat, s: Name)
    requires EncodeAll([], cap, pieces, []) == Some((p, fields)) && cap <= 0x4000 && i < k < |pieces|
    requires |TableAfter([], cap, pieces[..k], [])| < MAX_LABELS && SuffixOf(s, pieces[i].name)
    requires SuffixOf(s, pieces[k].name)
    ensures |fields| == |pieces| && fields[k].end - fields[k].start <= |pieces[k].name| - |s| + 2
    ensures s == pieces[i].name == pieces[k].name ==>
              && fields[k].end == fields[k].start + 2 <= |p|
              && exists ref :: NotedFor(p, fields[i], ref) && p[fields[k].start..fields[k].end] == Pointer(ref)
  {
    hide EncodeAll, TableAfter, TableGet, Noted, SuffixOf, Pointer, Closed, Reachable;
    var m := EncodeAllSplit([], cap, pieces, [], p, fields, k);
    NoneNoted();
    var t := TableAfter([], cap, pieces[..k], []);
    EarlierNoted([], cap, pieces[..k], [], m, fields[..k], i);
    NotedSuffix(t, pieces[i].name, s);
    LaterShort(m, cap, pieces[k..], t, p, fields[k..], 0, s);
    if s == pieces[i].name {
      assert NotedFor(p, fields[i], TableGet(t, s)) by {
        var f := fields[i];
        assert f == fields[..k][i] && p[f.start..f.end] == m[f.start..f.end];
      }
    }
  }

  /** A name that ends like one that was written before, while the table is not full, takes at most two octets more than
      what comes before that end. */
  lemma SharedSuffix(cap: nat, pieces: seq<Piece>, p: seq<byte>, fields: seq<Field>, i: nat, k: nat, s: Name)
    requires EncodeAll([], cap, pieces, []) == Some((p, fields)) && cap <= 0x4000 && i < k < |pieces|
    requires |TableAfter([], cap, pieces[..k], [])| < MAX_LABELS
    requires SuffixOf(s, pieces[i].name) && SuffixOf(s, pieces[k].name)
    ensures |fields| == |pieces| && fields[k].end - fields[k].start <= |pieces[k].name| - |s| + 2
  {
    hide EncodeAll, TableAfter, SuffixOf;
    EarlierShared(cap, pieces, p, fields, i, k, s);
  }

  /** A name that was written before, while the table is not full, is written as two octets: a pointer to where it was
      written out, which is its earlier field or where that points itself. */
  lemma RepeatedName(cap: nat, pieces: seq<Piece>, p: seq<byte>, fields: seq<Field>, i: nat, k: nat)
    requires EncodeAll([], cap, pieces, []) == Some((p, fields)) && cap <= 0x4000 && i < k < |pieces|
    requires |TableAfter([], cap, pieces[..k], [])| < MAX_LABELS && pieces[k].name == pieces[i].name
    ensures |fields| == |pieces| && fields[k].end == fields[k].start + 2 <= |p|
    ensures fields[i].start <= fields[i].end <= |p|
    ensures var b := p[fields[k].start..fields[k].end];
            b[0] >= 0xc0 && (Target(b[0], b[1]) == fields[i].start || p[fields[i].start..fields[i].end] == b)
  {
    hide EncodeAll, TableAfter, Pointer;
    EarlierShared(cap, pieces, p, fields, i, k, pieces[k].name);
    var ref :| NotedFor(p, fields[i], ref) && p[fields[k].start..fields[k].end] == Pointer(ref);
    PointerTarget(ref);
    PointerHigh(ref);
  }

  lemma PointerHigh(ref: nat)
    requires ref < 0x4000
    ensures Pointer(ref)[0] >= 0xc0
  {
  }
}
