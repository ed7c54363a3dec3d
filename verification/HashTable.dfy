/**
 The chained hash table of libevent/ht-internal.h, for elements that are equal when their keys are, with a load of
 one half.
 */
module HashTable {
  import opened Lists

  const N_PRIMES: nat := 26

  const PRIMES: seq<nat> := [
    53, 97, 193, 389,
    769, 1543, 3079, 6151,
    12289, 24593, 49157, 98317,
    196613, 393241, 786433, 1572869,
    3145739, 6291469, 12582917, 25165843,
    50331653, 100663319, 201326611, 402653189,
    805306457, 1610612741]

  /** The load limit of the largest table. */
  const LAST_LIMIT: nat := 805306370

  function Prime(i: nat): (p: nat)
    requires i < N_PRIMES
    ensures p >= 53 && (i == N_PRIMES - 1 ==> p / 2 == LAST_LIMIT)
  {
    PRIMES[i]
  }

  type Hash = nat -> nat
  type Table = seq<seq<nat>>

  function Bucket(hash: Hash, x: nat, n: nat): (b: nat)
    requires n > 0
    ensures b < n
  {
    hash(x) % n
  }

  /** Each bucket holds exactly the elements that belong there, once. */
  ghost predicate BucketOk(hash: Hash, s: seq<nat>, elems: set<nat>, n: nat, b: nat)
    requires n > 0
  {
    NoDup(s) && forall x :: x in s <==> x in elems && Bucket(hash, x, n) == b
  }

  ghost predicate TableOk(hash: Hash, t: Table, elems: set<nat>) {
    |t| > 0 && forall b :: 0 <= b < |t| ==> BucketOk(hash, t[b], elems, |t|, b)
  }

  lemma TableInsert(hash: Hash, t: Table, elems: set<nat>, x: nat)
    requires TableOk(hash, t, elems) && x !in elems
    ensures var b := Bucket(hash, x, |t|); TableOk(hash, t[b := [x] + t[b]], elems + {x})
  {
  }

  lemma TableRemove(hash: Hash, t: Table, elems: set<nat>, x: nat)
    requires TableOk(hash, t, elems) && x in elems
    ensures var b := Bucket(hash, x, |t|);
            x in t[b] && |Remove(t[b], x)| == |t[b]| - 1 && TableOk(hash, t[b := Remove(t[b], x)], elems - {x})
  {
    RemoveProps(t[Bucket(hash, x, |t|)], x);
    hide Remove;
  }

  // ------------------------------------------------------------ a fresh table

  /** An element is in the new table or still in the old. */
  ghost predicate Moving(hash: Hash, from: Table, to: Table, elems: set<nat>) {
    && |from| > 0 && |to| > 0
    && (forall b :: 0 <= b < |from| ==>
          NoDup(from[b]) && forall x :: x in from[b] ==> x in elems && Bucket(hash, x, |from|) == b)
    && (forall b :: 0 <= b < |to| ==> NoDup(to[b]) && forall x :: x in to[b] <==>
          x in elems && Bucket(hash, x, |to|) == b && x !in from[Bucket(hash, x, |from|)])
  }

  lemma MoveStart(hash: Hash, from: Table, elems: set<nat>, n: nat)
    requires TableOk(hash, from, elems) && n > 0
    ensures Moving(hash, from, seq(n, _ => []), elems)
  {
  }

  lemma MoveOne(hash: Hash, from: Table, to: Table, elems: set<nat>, i: nat)
    requires Moving(hash, from, to, elems) && i < |from| && from[i] != []
    ensures var x := from[i][0];
            var b := Bucket(hash, x, |to|);
            Moving(hash, from[i := from[i][1..]], to[b := [x] + to[b]], elems)
  {
    hide Bucket;
    var x := from[i][0];
    assert x in from[i];
    assert from[i] == [x] + from[i][1..];
    assert x !in to[Bucket(hash, x, |to|)] && x !in from[i][1..];
  }

  lemma MovedAll(hash: Hash, from: Table, to: Table, elems: set<nat>)
    requires Moving(hash, from, to, elems) && forall b :: 0 <= b < |from| ==> from[b] == []
    ensures TableOk(hash, to, elems)
  {
  }

  /** HT_GROW when a new table can be had: every element is linked anew. */
  method Relink(hash: Hash, table: Table, n: nat, ghost elems: set<nat>) returns (to: Table)
    requires TableOk(hash, table, elems) && n > 0
    ensures TableOk(hash, to, elems) && |to| == n && SumLen(to) == SumLen(table)
  {
    hide TableOk, SumLen, Moving, Bucket;
    var from := table;
    to := seq(n, _ => []);
    MoveStart(hash, table, elems, n);
    SumLenZero(to);
    var i := 0;
    while i < |from|
      invariant i <= |from| == |table| && |to| == n && Moving(hash, from, to, elems)
                && SumLen(from) + SumLen(to) == SumLen(table)
      invariant forall b :: 0 <= b < i ==> from[b] == []
    {
      while from[i] != []
        invariant i < |from| == |table| && |to| == n && Moving(hash, from, to, elems)
                  && SumLen(from) + SumLen(to) == SumLen(table)
        invariant forall b :: 0 <= b < i ==> from[b] == []
        decreases |from[i]|
      {
        var x := from[i][0];
        var b := Bucket(hash, x, n);
        MoveOne(hash, from, to, elems, i);
        SumLenUpdate(from, i, from[i][1..]);
        SumLenUpdate(to, b, [x] + to[b]);
        from := from[i := from[i][1..]];
        to := to[b := [x] + to[b]];
      }
      i := i + 1;
    }
    MovedAll(hash, from, to, elems);
    SumLenZero(from);
  }

  // ------------------------------------------------------------ in place

  /** An element is in the bucket it had among `m`, or in the one it has among all, and never in both. */
  ghost predicate Spread(hash: Hash, t: Table, elems: set<nat>, m: nat) {
    && 0 < m <= |t|
    && (forall b :: 0 <= b < |t| ==> NoDup(t[b]) && forall x :: x in t[b] ==>
          x in elems && (Bucket(hash, x, |t|) == b || Bucket(hash, x, m) == b))
    && (forall x :: x in elems ==> x in t[Bucket(hash, x, |t|)] || x in t[Bucket(hash, x, m)])
    && (forall x :: x in elems && Bucket(hash, x, |t|) != Bucket(hash, x, m) && x in t[Bucket(hash, x, m)] ==>
          x !in t[Bucket(hash, x, |t|)])
  }

  lemma SpreadStart(hash: Hash, t: Table, elems: set<nat>, pad: Table)
    requires TableOk(hash, t, elems) && forall k :: 0 <= k < |pad| ==> pad[k] == []
    ensures Spread(hash, t + pad, elems, |t|)
  {
    hide Bucket;
    var t' := t + pad;
    forall b | 0 <= b < |t'|
      ensures NoDup(t'[b]) && forall x :: x in t'[b] ==> x in elems && Bucket(hash, x, |t|) == b
    {
      if b < |t| { assert BucketOk(hash, t[b], elems, |t|, b); }
    }
    forall x | x in elems ensures x in t'[Bucket(hash, x, |t|)] {
      assert BucketOk(hash, t[Bucket(hash, x, |t|)], elems, |t|, Bucket(hash, x, |t|));
    }
  }

  /** The `i`th element of bucket `b` goes to the front of the bucket it belongs in. */
  function Relocate(t: Table, b: nat, i: nat, b2: nat): Table
    requires b < |t| && i < |t[b]| && b2 < |t| && b2 != b
  {
    t[b := t[b][..i] + t[b][i + 1..]][b2 := [t[b][i]] + t[b2]]
  }

  lemma WithoutAt(s: seq<nat>, i: nat)
    requires NoDup(s) && i < |s|
    ensures NoDup(s[..i] + s[i + 1..]) && forall x :: x in s[..i] + s[i + 1..] <==> x in s && x != s[i]
  {
    var r := s[..i] + s[i + 1..];
    forall x | x in s && x != s[i] ensures x in r {
      var j :| 0 <= j < |s| && s[j] == x;
      assert r[if j < i then j else j - 1] == x;
    }
  }

  lemma SpreadStep(hash: Hash, t: Table, elems: set<nat>, m: nat, b: nat, i: nat)
    requires Spread(hash, t, elems, m) && b < |t| && i < |t[b]| && Bucket(hash, t[b][i], |t|) != b
    ensures Spread(hash, Relocate(t, b, i, Bucket(hash, t[b][i], |t|)), elems, m)
  {
    hide Bucket, NoDup;
    var x := t[b][i];
    var b2 := Bucket(hash, x, |t|);
    var t' := Relocate(t, b, i, b2);
    assert x in t[b];
    WithoutAt(t[b], i);
    assert x !in t[b2];
    NoDupFront(t[b2], x);
  }

  lemma NoDupFront(s: seq<nat>, x: nat)
    requires NoDup(s) && x !in s
    ensures NoDup([x] + s)
  {
  }

  /** Buckets below `b`, and the first `i` elements of bucket `b`, are where they belong. */
  ghost predicate Settled(hash: Hash, t: Table, b: nat, i: nat)
    requires |t| > 0
  {
    && (forall k, x :: 0 <= k < b && k < |t| && x in t[k] ==> Bucket(hash, x, |t|) == k)
    && (b < |t| ==> forall j :: 0 <= j < i && j < |t[b]| ==> Bucket(hash, t[b][j], |t|) == b)
  }

  lemma SettledStep(hash: Hash, t: Table, b: nat, i: nat)
    requires |t| > 0 && b < |t| && i < |t[b]| && Settled(hash, t, b, i)
    ensures var b2 := Bucket(hash, t[b][i], |t|);
            if b2 == b then Settled(hash, t, b, i + 1) else Settled(hash, Relocate(t, b, i, b2), b, i)
  {
    hide Bucket;
  }

  lemma SettledNext(hash: Hash, t: Table, b: nat)
    requires |t| > 0 && b < |t| && Settled(hash, t, b, |t[b]|)
    ensures Settled(hash, t, b + 1, 0)
  {
    hide Bucket;
    forall k, x | 0 <= k < b + 1 && x in t[k] ensures Bucket(hash, x, |t|) == k {
      if k == b {
        var j :| 0 <= j < |t[b]| && t[b][j] == x;
      }
    }
  }

  lemma SettledAll(hash: Hash, t: Table, elems: set<nat>, m: nat)
    requires Spread(hash, t, elems, m) && Settled(hash, t, m, 0)
    ensures TableOk(hash, t, elems)
  {
    hide NoDup;
    forall b | 0 <= b < |t| ensures BucketOk(hash, t[b], elems, |t|, b) {
      forall x | x in t[b] ensures Bucket(hash, x, |t|) == b {
      }
      forall x | x in elems && Bucket(hash, x, |t|) == b ensures x in t[b] {
      }
    }
  }

  lemma RelocateSum(t: Table, b: nat, i: nat, b2: nat)
    requires b < |t| && i < |t[b]| && b2 < |t| && b2 != b
    ensures SumLen(Relocate(t, b, i, b2)) == SumLen(t)
  {
    var t1 := t[b := t[b][..i] + t[b][i + 1..]];
    SumLenUpdate(t, b, t1[b]);
    SumLenUpdate(t1, b2, [t[b][i]] + t[b2]);
  }

  lemma {:induction false} SumLenPad(t: Table, pad: Table)
    requires forall k :: 0 <= k < |pad| ==> pad[k] == []
    ensures SumLen(t + pad) == SumLen(t)
  {
    if t == [] {
      assert t + pad == pad;
      SumLenZero(pad);
    } else {
      assert (t + pad)[1..] == t[1..] + pad;
      SumLenPad(t[1..], pad);
    }
  }

  /** HT_GROW when the old table has to be stretched: elements that are out of place are linked anew. */
  method RelinkInPlace(hash: Hash, table: Table, n: nat, ghost elems: set<nat>) returns (t: Table)
    requires TableOk(hash, table, elems) && n >= |table|
    ensures TableOk(hash, t, elems) && |t| == n && SumLen(t) == SumLen(table)
  {
    hide TableOk, SumLen, Spread, Settled, Bucket;
    var m := |table|;
    var pad := seq(n - m, _ => []);
    SpreadStart(hash, table, elems, pad);
    SumLenPad(table, pad);
    t := table + pad;
    SpreadKnown(hash, t, elems, m);
    SettledStart(hash, t);
    var b := 0;
    while b < m
      invariant 0 < m <= n == |t| && b <= m && Spread(hash, t, elems, m) && Settled(hash, t, b, 0)
                && SumLen(t) == SumLen(table)
    {
      var i := 0;
      while i < |t[b]|
        invariant 0 < m <= n == |t| && b < m && i <= |t[b]| && Spread(hash, t, elems, m) && Settled(hash, t, b, i)
        invariant SumLen(t) == SumLen(table)
        decreases |t[b]| - i
      {
        var b2 := Bucket(hash, t[b][i], n);
        SettledStep(hash, t, b, i);
        if b2 == b {
          i := i + 1;
        } else {
          SpreadStep(hash, t, elems, m, b, i);
          RelocateSum(t, b, i, b2);
          t := Relocate(t, b, i, b2);
        }
      }
      SettledNext(hash, t, b);
      b := b + 1;
    }
    SettledAll(hash, t, elems, m);
  }

  lemma SpreadKnown(hash: Hash, t: Table, elems: set<nat>, m: nat)
    requires Spread(hash, t, elems, m)
    ensures 0 < m <= |t|
  {
  }

  lemma SettledStart(hash: Hash, t: Table)
    requires |t| > 0
    ensures Settled(hash, t, 0, 0)
  {
  }

  // ------------------------------------------------------------ the table as a set

  class HashSet {
    const hash: Hash
    /** Empty while `hth_table` is NULL. */
    var table: Table
    var nEntries: nat
    var loadLimit: nat
    var primeIdx: int
    ghost var elems: set<nat>

    ghost predicate Valid()
      reads this
    {
      && nEntries == SumLen(table) == |elems|
      && if table == [] then elems == {} && loadLimit == 0 && primeIdx == -1
         else 0 <= primeIdx < N_PRIMES && |table| == Prime(primeIdx) && loadLimit == |table| / 2
              && (primeIdx == N_PRIMES - 1 || nEntries <= loadLimit) && TableOk(hash, table, elems)
    }

    /** HT_INIT. */
    constructor (hash: Hash)
      ensures Valid() && elems == {} && this.hash == hash
    {
      this.hash := hash;
      table, nEntries, loadLimit, primeIdx, elems := [], 0, 0, -1, {};
    }

    /** HT_FIND: looking in one bucket is looking in the set. */
    method Find(x: nat) returns (found: bool)
      requires Valid()
      ensures found <==> x in elems
    {
      if table == [] { return false; }
      var s := table[Bucket(hash, x, |table|)];
      var i := 0;
      while i < |s|
        invariant i <= |s| && x !in s[..i]
      {
        if s[i] == x { return true; }
        i := i + 1;
      }
      assert s[..|s|] == s;
      found := false;
    }

    /** The next size for more than `size` elements.  Beyond the last limit the loop would leave the table of primes. */
    method NextPrime(size: nat) returns (idx: nat)
      requires -1 <= primeIdx < N_PRIMES - 1 && size < LAST_LIMIT
      ensures primeIdx < idx < N_PRIMES && size < Prime(idx) / 2
      ensures forall j :: primeIdx < j < idx ==> Prime(j) / 2 <= size
    {
      hide Prime;
      idx := primeIdx + 1;
      while Prime(idx) / 2 <= size
        invariant primeIdx < idx < N_PRIMES && forall j :: primeIdx < j < idx ==> Prime(j) / 2 <= size
        decreases N_PRIMES - idx
      {
        idx := idx + 1;
      }
    }

    /** HT_GROW; `roomy` tells whether a second table can be had beside the first. */
    method Grow(size: nat, roomy: bool)
      requires Valid() && (primeIdx == N_PRIMES - 1 || size < LAST_LIMIT)
      modifies this
      ensures Valid() && elems == old(elems) && nEntries == old(nEntries)
      ensures old(primeIdx) < N_PRIMES - 1 ==> table != [] && size < loadLimit
      ensures old(primeIdx) == N_PRIMES - 1 ==> table == old(table) && primeIdx == old(primeIdx)
    {
      hide TableOk, SumLen, Prime, Bucket;
      if primeIdx == N_PRIMES - 1 { return; }
      if loadLimit > size { return; }
      var idx := NextPrime(size);
      var n := Prime(idx);
      if table == [] {
        EmptyTable(hash, n);
        table := seq(n, _ => []);
      } else if roomy {
        table := Relink(hash, table, n, elems);
      } else {
        PrimesGrow(primeIdx, idx);
        table := RelinkInPlace(hash, table, n, elems);
      }
      primeIdx := idx;
      loadLimit := n / 2;
    }

    /** One element more is never too many for HT_GROW. */
    lemma MayGrow()
      requires Valid()
      ensures primeIdx == N_PRIMES - 1 || nEntries + 1 < LAST_LIMIT
    {
      if 0 <= primeIdx < N_PRIMES - 1 { RoomToGrow(primeIdx); }
    }

    /** HT_INSERT, of an element that is not there yet. */
    method Insert(x: nat, roomy: bool)
      requires Valid() && x !in elems
      modifies this
      ensures Valid() && elems == old(elems) + {x}
    {
      hide TableOk, SumLen, Prime, Bucket;
      MayGrow();
      if table == [] || nEntries >= loadLimit { Grow(nEntries + 1, roomy); }
      nEntries := nEntries + 1;
      var b := Bucket(hash, x, |table|);
      TableInsert(hash, table, elems, x);
      SumLenUpdate(table, b, [x] + table[b]);
      table := table[b := [x] + table[b]];
      elems := elems + {x};
    }

    /** HT_REMOVE. */
    method RemoveElement(x: nat) returns (found: bool)
      requires Valid()
      modifies this
      ensures Valid() && elems == old(elems) - {x} && (found <==> x in old(elems))
    {
      hide TableOk, SumLen, Prime, Bucket, Remove;
      found := Find(x);
      if !found { return; }
      var b := Bucket(hash, x, |table|);
      TableRemove(hash, table, elems, x);
      SumLenUpdate(table, b, Remove(table[b], x));
      table := table[b := Remove(table[b], x)];
      nEntries := nEntries - 1;
      elems := elems - {x};
    }
  }

  /** What REP_IS_BAD looks at. */
  ghost predicate RepSound(hash: Hash, table: Table, nEntries: nat, loadLimit: nat, primeIdx: int) {
    if table == [] then nEntries == 0 && loadLimit == 0 && primeIdx == -1
    else
      && 0 <= primeIdx < N_PRIMES && loadLimit != 0 && nEntries <= loadLimit
      && |table| == Prime(primeIdx) && loadLimit == |table| / 2
      && (forall b, j :: 0 <= b < |table| && 0 <= j < |table[b]| ==> Bucket(hash, table[b][j], |table|) == b)
      && nEntries == SumLen(table)
  }

  /** HT_REP_IS_BAD is 0 exactly for a sound representation. */
  method RepIsBad(hash: Hash, table: Table, nEntries: nat, loadLimit: nat, primeIdx: int) returns (r: nat)
    requires primeIdx < N_PRIMES
    ensures r == 0 <==> RepSound(hash, table, nEntries, loadLimit, primeIdx)
  {
    hide Prime, Bucket;
    if |table| == 0 {
      return if nEntries == 0 && loadLimit == 0 && primeIdx == -1 then 0 else 1;
    }
    if primeIdx < 0 || loadLimit == 0 { return 2; }
    if nEntries > loadLimit { return 3; }
    if |table| != Prime(primeIdx) { return 4; }
    if loadLimit != |table| / 2 { return 5; }
    var n, i := 0, 0;
    assert table[|table|..] == [];
    assert table[0..] == table;
    while i < |table|
      invariant i <= |table| && n + SumLen(table[i..]) == SumLen(table)
      invariant forall b, j :: 0 <= b < i && 0 <= j < |table[b]| ==> Bucket(hash, table[b][j], |table|) == b
    {
      var j := 0;
      while j < |table[i]|
        invariant j <= |table[i]| && forall k :: 0 <= k < j ==> Bucket(hash, table[i][k], |table|) == i
      {
        if Bucket(hash, table[i][j], |table|) != i { return 10000 + i; }
        j := j + 1;
      }
      n := n + |table[i]|;
      assert table[i..][1..] == table[i + 1..];
      i := i + 1;
    }
    return if n != nEntries then 6 else 0;
  }

  /** Whatever is done to a set, its representation is bad only when it is larger than the last table is meant for:
      it goes on filling that table, which HT_REP_IS_BAD does not allow. */
  lemma BadWhenOverfull(h: HashSet)
    requires h.Valid()
    ensures RepSound(h.hash, h.table, h.nEntries, h.loadLimit, h.primeIdx) <==> h.nEntries <= LAST_LIMIT
  {
    hide Bucket;
    var table := h.table;
    h.MayGrow();
    forall b, j | 0 <= b < |table| && 0 <= j < |table[b]| ensures Bucket(h.hash, table[b][j], |table|) == b {
      assert BucketOk(h.hash, table[b], h.elems, |table|, b) && table[b][j] in table[b];
    }
  }

  lemma EmptyTable(hash: Hash, n: nat)
    requires n > 0
    ensures TableOk(hash, seq(n, _ => []), {}) && SumLen(seq(n, _ => [])) == 0
  {
    SumLenZero(seq(n, _ => []));
  }

  lemma PrimesGrow(i: nat, j: nat)
    requires i < j < N_PRIMES
    ensures Prime(i) < Prime(j)
  {
    var k := i;
    while k < j
      invariant i <= k <= j && (k > i ==> Prime(i) < Prime(k))
    {
      NextLarger(k);
      k := k + 1;
    }
  }

  /** A table that is full, but not the last, can be outgrown. */
  lemma RoomToGrow(i: nat)
    requires i < N_PRIMES - 1
    ensures Prime(i) / 2 + 1 < LAST_LIMIT
  {
    if i < N_PRIMES - 2 { PrimesGrow(i, N_PRIMES - 2); }
  }

  lemma NextLarger(k: nat)
    requires k + 1 < N_PRIMES
    ensures Prime(k) < Prime(k + 1)
  {
  }
}
