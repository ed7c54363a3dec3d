/**
 The evbuffer of libevent/buffer.c: a linked list of chains, each a block of memory of which a middle part holds
 data.  Every operation is proved to do to the chains what the flat byte sequence asks for.
 */
module EvBuffer {
  import opened Common
  import opened Lists
  import opened EvBlocks

  const EV_SIZE_MAX: nat := 0xffff_ffff_ffff_ffff
  /** MIN_BUFFER_SIZE and sizeof(struct evbuffer_chain), with pointers of 8 octets. */
  const MIN_BUFFER_SIZE: nat := 1024
  const CHAIN_SIZE: nat := 48
  const CHAIN_MAX_AUTO_SIZE: nat := 4096
  const MAX_TO_REALIGN: nat := 2048

  /** memcpy into a block. */
  function Splice(b: seq<byte>, at: nat, d: seq<byte>): (r: seq<byte>)
    requires at + |d| <= |b|
    ensures |r| == |b| && r[at..at + |d|] == d && r[..at] == b[..at] && r[at + |d|..] == b[at + |d|..]
  {
    b[..at] + d + b[at + |d|..]
  }

  /** `struct evbuffer_chain`, mutable and unpinned. */
  class Chain {
    var next: Chain?
    var buffer: seq<byte>
    var misalign: nat
    var off: nat

    /** `evbuffer_chain_new`: sizes are doubled from the smallest up. */
    constructor (size: nat)
      ensures Holds([]) && next == null && misalign == 0 && |buffer| >= size
    {
      var toAlloc := MIN_BUFFER_SIZE;
      while toAlloc < size + CHAIN_SIZE
        invariant toAlloc >= MIN_BUFFER_SIZE
      {
        toAlloc := toAlloc * 2;
      }
      buffer := seq(toAlloc - CHAIN_SIZE, _ => 0);
      next, misalign, off := null, 0, 0;
    }

    /** The chain is sound and holds `b`. */
    ghost predicate Holds(b: seq<byte>)
      reads this`buffer, this`misalign, this`off
      ensures Holds(b) ==> |b| == off && misalign + off <= |buffer|
    {
      |buffer| > 0 && misalign + off <= |buffer| && b == buffer[misalign..misalign + off]
    }

    /** memcpy of the first `n` octets. */
    method Read(n: nat, ghost b: seq<byte>) returns (data: seq<byte>)
      requires Holds(b) && n <= off
      ensures data == b[..n] == b[0..n]
    {
      data := buffer[misalign..misalign + n];
    }

    /** memcmp with the octets from `i` on. */
    method Compare(i: nat, mem: seq<byte>, ghost b: seq<byte>) returns (r: int)
      requires Holds(b) && i + |mem| <= off
      ensures r == 0 <==> b[i..i + |mem|] == mem
    {
      var j := 0;
      while j < |mem|
        invariant j <= |mem| && b[i..i + j] == mem[..j]
      {
        if buffer[misalign + i + j] != mem[j] {
          assert b[i..i + |mem|][j] != mem[j];
          return buffer[misalign + i + j] as int - mem[j] as int;
        }
        assert mem[..j + 1] == mem[..j] + [mem[j]];
        j := j + 1;
      }
      r := 0;
    }

    /** memcpy to the space behind the data. */
    method Append(data: seq<byte>, ghost b: seq<byte>)
      requires Holds(b) && misalign + off + |data| <= |buffer|
      modifies this`buffer, this`off
      ensures Holds(b + data) && |buffer| == old(|buffer|)
    {
      buffer := Splice(buffer, misalign + off, data);
      off := off + |data|;
    }

    /** memcpy to the space before the data. */
    method PutBefore(data: seq<byte>, ghost b: seq<byte>)
      requires Holds(b) && |data| <= misalign
      modifies this`buffer, this`off, this`misalign
      ensures Holds(data + b) && misalign == old(misalign) - |data| && off == old(off) + |data|
    {
      buffer := Splice(buffer, misalign - |data|, data);
      misalign := misalign - |data|;
      off := off + |data|;
      assert buffer[misalign..misalign + |data|] == data;
    }

    /** `evbuffer_chain_align`. */
    method Align(ghost b: seq<byte>)
      requires Holds(b)
      modifies this`buffer, this`misalign
      ensures Holds(b) && misalign == 0 && |buffer| == old(|buffer|)
    {
      buffer := Splice(buffer, 0, buffer[misalign..misalign + off]);
      misalign := 0;
    }

    /** The first `n` octets are given up. */
    method DropFront(n: nat, ghost b: seq<byte>)
      requires Holds(b) && n <= off
      modifies this`misalign, this`off
      ensures Holds(b[n..])
    {
      misalign := misalign + n;
      off := off - n;
    }

    /** An empty chain is taken to be empty at the beginning. */
    method TurnRound()
      requires Holds([])
      modifies this`misalign
      ensures Holds([]) && misalign == |buffer| > 0
    {
      misalign := |buffer|;
    }

    /** `evbuffer_chain_should_realign`. */
    predicate ShouldRealign(datlen: nat)
      reads this
    {
      off <= |buffer| && |buffer| - off >= datlen && off < |buffer| / 2 && off <= MAX_TO_REALIGN
    }
  }

  /** A pointer to a pointer to a chain: `&buf->first`, or `&c->next`. */
  datatype Slot = First | NextOf(c: Chain)

  function At(spine: seq<Chain>, k: nat): Chain? {
    if k < |spine| then spine[k] else null
  }

  /** The slot that points at the `k`th chain. */
  function SlotAt(spine: seq<Chain>, k: int): Slot {
    if 0 < k <= |spine| then NextOf(spine[k - 1]) else First
  }

  ghost predicate LinkAt(spine: seq<Chain>, i: nat)
    requires i < |spine|
    reads spine[i]
  {
    spine[i].next == At(spine, i + 1)
  }

  /** The chains are linked in this order. */
  ghost predicate Linked(spine: seq<Chain>)
    reads spine
  {
    forall i :: 0 <= i < |spine| ==> LinkAt(spine, i)
  }

  lemma NoDupLast(spine: seq<Chain>)
    requires NoDup(spine) && spine != []
    ensures forall i :: 0 <= i < |spine| - 1 ==> spine[i] != spine[|spine| - 1]
  {
  }

  lemma NoDupFirst(spine: seq<Chain>, chain: Chain)
    requires NoDup(spine)
    ensures chain !in spine ==> NoDup([chain] + spine)
    ensures forall i :: 1 <= i < |spine| ==> spine[i] != spine[0]
  {
  }

  predicate Disjoint(a: seq<Chain>, b: seq<Chain>) {
    forall c :: c in a ==> c !in b
  }

  lemma NoDupJoin(a: seq<Chain>, b: seq<Chain>)
    requires NoDup(a) && NoDup(b) && Disjoint(a, b)
    ensures NoDup(a + b)
  {
    forall i, j | 0 <= i < j < |a + b| ensures (a + b)[i] != (a + b)[j] {
      if i < |a| <= j { assert a[i] in a && b[j - |a|] in b; }
    }
  }

  /** Two linked lists, the first of which ends at the second. */
  lemma JoinLinked(a: seq<Chain>, b: seq<Chain>)
    requires forall i :: 0 <= i < |a| - 1 ==> LinkAt(a, i)
    requires a != [] ==> a[|a| - 1].next == At(b, 0)
    requires Linked(b)
    ensures Linked(a + b)
  {
    forall i | 0 <= i < |a + b| ensures LinkAt(a + b, i) {
      if i < |a| - 1 {
        assert LinkAt(a, i);
      } else if i >= |a| {
        assert LinkAt(b, i - |a|);
      }
    }
  }

  lemma JoinHold(a: seq<Chain>, x: Blocks, b: seq<Chain>, y: Blocks)
    requires AllHold(a, x) && AllHold(b, y)
    ensures AllHold(a + b, x + y) && (NoneEmpty(x) && NoneEmpty(y) ==> NoneEmpty(x + y))
  {
    hide Chain.Holds;
  }

  lemma NoDupCut(spine: seq<Chain>, k: nat)
    requires NoDup(spine) && k < |spine|
    ensures NoDup(spine[k..]) && NoDup(spine[..k]) && spine[k] !in spine[..k]
    ensures forall i :: 0 <= i < |spine| && i != k ==> spine[i] != spine[k]
  {
  }

  lemma NoDupAppend(spine: seq<Chain>, chain: Chain)
    requires NoDup(spine) && chain !in spine
    ensures NoDup(spine + [chain])
  {
  }

  ghost predicate AllHold(spine: seq<Chain>, blocks: Blocks)
    reads spine
    ensures AllHold(spine, blocks) ==> |blocks| == |spine|
  {
    |blocks| == |spine| && forall i :: 0 <= i < |spine| ==> spine[i].Holds(blocks[i])
  }

  /** The first `k` chains, whatever the last of them is linked to. */
  ghost predicate Prefix(spine: seq<Chain>, blocks: Blocks, k: nat)
    requires k <= |spine| && k <= |blocks|
    reads spine[..k]
  {
    && AllHold(spine[..k], blocks[..k])
    && forall i :: 0 <= i < k - 1 ==> LinkAt(spine[..k], i)
  }

  predicate NoneEmpty(blocks: Blocks) {
    forall i :: 0 <= i < |blocks| ==> blocks[i] != []
  }

  /** `struct evbuffer`. */
  class Evbuffer {
    var first: Chain?
    var last: Chain?
    var lastWithDatap: Slot
    var totalLen: nat
    var freezeStart: bool
    var freezeEnd: bool
    ghost var spine: seq<Chain>
    ghost var blocks: Blocks

    /** No chain, or one chain, or several chains that all hold data.  `last` is the last chain, and
        `lastWithDatap` is the slot that points at it. */
    ghost predicate Valid()
      reads this, spine
    {
      && NoDup(spine) && Linked(spine) && AllHold(spine, blocks)
      && (|spine| > 1 ==> NoneEmpty(blocks))
      && first == At(spine, 0)
      && last == (if spine == [] then null else spine[|spine| - 1])
      && lastWithDatap == SlotAt(spine, |spine| - 1)
      && totalLen == |Concat(blocks)|
    }

    ghost function Contents(): seq<byte>
      reads this
    {
      Concat(blocks)
    }

    constructor ()
      ensures Valid() && Contents() == [] && spine == [] && !freezeStart && !freezeEnd
    {
      first, last, lastWithDatap, totalLen := null, null, First, 0;
      freezeStart, freezeEnd := false, false;
      spine, blocks := [], [];
    }

    /** ZERO_CHAIN. */
    method ZeroChain()
      modifies this
      ensures Valid() && Contents() == [] && spine == []
      ensures freezeStart == old(freezeStart) && freezeEnd == old(freezeEnd)
    {
      first, last, lastWithDatap, totalLen := null, null, First, 0;
      spine, blocks := [], [];
    }

    /** `*slot`. */
    function Deref(slot: Slot): Chain?
      reads this, match slot case First => {} case NextOf(c) => {c}
    {
      match slot case First => first case NextOf(c) => c.next
    }

    lemma DerefAt(k: nat)
      requires Linked(spine) && first == At(spine, 0) && k <= |spine|
      ensures Deref(SlotAt(spine, k)) == At(spine, k)
    {
      assert k > 0 ==> LinkAt(spine, k - 1);
    }

    /** The buffer consists of this chain alone. */
    method OneChain(chain: Chain, ghost b: seq<byte>)
      requires chain.Holds(b) && chain.next == null
      modifies this
      ensures Valid() && Contents() == b && spine == [chain] && blocks == [b]
      ensures freezeStart == old(freezeStart) && freezeEnd == old(freezeEnd)
    {
      first, last, lastWithDatap, totalLen := chain, chain, First, chain.off;
      spine, blocks := [chain], [b];
      ConcatOne(b);
    }

    /** A chain with data goes behind chains with data. */
    method AppendChain(chain: Chain, ghost b: seq<byte>)
      requires Valid() && spine != [] && NoneEmpty(blocks) && chain !in spine && chain.Holds(b) && chain.next == null
               && b != []
      modifies this, last
      ensures Valid() && spine == old(spine) + [chain] && blocks == old(blocks) + [b]
      ensures freezeStart == old(freezeStart) && freezeEnd == old(freezeEnd)
    {
      hide Concat, Chain.Holds, NoDup;
      ConcatAppend(blocks, [b]);
      ConcatOne(b);
      NoDupAppend(spine, chain);
      NoDupLast(spine);
      var l := last;
      lastWithDatap := NextOf(l);
      last := chain;
      totalLen := totalLen + chain.off;
      spine, blocks := spine + [chain], blocks + [b];
      l.next := chain;
      forall i | 0 <= i < |spine| ensures LinkAt(spine, i) {
        assert i < old(|spine|) ==> old(LinkAt(spine, i));
      }
    }

    /** `evbuffer_chain_insert`: a chain goes to the end; an empty chain there is replaced. */
    method ChainInsert(chain: Chain, ghost b: seq<byte>)
      requires Valid() && chain !in spine && chain.Holds(b) && chain.next == null
      requires spine == [] || b != []
      modifies this, last
      ensures Valid() && Contents() == old(Contents()) + b
      ensures if old(spine) != [] && NoneEmpty(old(blocks)) then spine == old(spine) + [chain] else spine == [chain]
      ensures freezeStart == old(freezeStart) && freezeEnd == old(freezeEnd)
    {
      hide Concat;
      ConcatNone();
      DerefAt(if spine == [] then 0 else |spine| - 1);
      DerefAt(|spine|);
      if Deref(lastWithDatap) == null {
        OneChain(chain, b);
      } else {
        ghost var k := |spine| - 1;
        var ch := lastWithDatap;
        while Deref(ch) != null && Deref(ch).off != 0
          invariant |spine| - 1 <= k <= |spine| && ch == SlotAt(spine, k)
          invariant k == |spine| ==> blocks[k - 1] != []
          decreases |spine| - k
        {
          ch := NextOf(Deref(ch));
          k := k + 1;
        }
        if Deref(ch) == null {
          ConcatAppend(blocks, [b]);
          ConcatOne(b);
          AppendChain(chain, b);
        } else {
          // There is one chain, and it is empty.
          assert blocks == [blocks[0]];
          ConcatOne(blocks[0]);
          OneChain(chain, b);
        }
      }
    }

    lemma LastHolds()
      requires Valid() && last != null
      ensures last.misalign + last.off <= |last.buffer|
    {
      assert last.Holds(blocks[|spine| - 1]);
    }

    /** Octets go into the space of the last chain. */
    method AppendToLast(data: seq<byte>)
      requires Valid() && last != null && last.misalign + last.off + |data| <= |last.buffer|
      modifies this, last
      ensures Valid() && Contents() == old(Contents()) + data && spine == old(spine)
      ensures data != [] ==> NoneEmpty(blocks)
      ensures |last.buffer| == old(|last.buffer|) && freezeStart == old(freezeStart) && freezeEnd == old(freezeEnd)
    {
      hide Concat, Chain.Holds, NoDup;
      var n := |blocks| - 1;
      GrowLast(blocks, data);
      NoDupLast(spine);
      totalLen := totalLen + |data|;
      blocks := blocks[n := blocks[n] + data];
      last.Append(data, old(blocks)[n]);
      assert forall i :: 0 <= i < |spine| ==> old(LinkAt(spine, i)) ==> LinkAt(spine, i);
    }

    method AlignLast()
      requires Valid() && last != null
      modifies last
      ensures Valid() && last.misalign == 0 && last.off == old(last.off) && |last.buffer| == old(|last.buffer|)
    {
      hide Concat, Chain.Holds, NoDup;
      NoDupLast(spine);
      last.Align(blocks[|blocks| - 1]);
      assert forall i :: 0 <= i < |spine| ==> old(LinkAt(spine, i)) ==> LinkAt(spine, i);
    }

    /** `evbuffer_add`. */
    method Add(data: seq<byte>) returns (r: int)
      requires Valid()
      modifies this, last
      ensures Valid() && freezeStart == old(freezeStart) && freezeEnd == old(freezeEnd)
      ensures r == if freezeEnd || |data| > EV_SIZE_MAX - old(totalLen) then -1 else 0
      ensures Contents() == if r == 0 then old(Contents()) + data else old(Contents())
      ensures forall c :: c in spine ==> c in old(spine) || fresh(c)
    {
      hide Concat, Chain.Holds, NoDup, Linked, AllHold;
      if freezeEnd { return -1; }
      if |data| > EV_SIZE_MAX - totalLen { return -1; }
      if last == null {
        var chain := new Chain(|data|);
        ChainInsert(chain, []);
      }
      LastHolds();
      var remain := |last.buffer| - last.misalign - last.off;
      if remain >= |data| {
        AppendToLast(data);
        return 0;
      } else if last.ShouldRealign(|data|) {
        AlignLast();
        AppendToLast(data);
        return 0;
      }
      AddSpill(data, remain);
      return 0;
    }

    /** What does not fit into the last chain goes into a new one. */
    method AddSpill(data: seq<byte>, remain: nat)
      requires Valid() && last != null && last.misalign + last.off + remain == |last.buffer| && remain < |data|
      modifies this, last
      ensures Valid() && Contents() == old(Contents()) + data
      ensures forall c :: c in spine ==> c in old(spine) || fresh(c)
      ensures freezeStart == old(freezeStart) && freezeEnd == old(freezeEnd)
    {
      hide Concat, Chain.Holds, NoDup, Linked, AllHold;
      var toAlloc := |last.buffer|;
      if toAlloc <= CHAIN_MAX_AUTO_SIZE / 2 { toAlloc := toAlloc * 2; }
      if |data| > toAlloc { toAlloc := |data|; }
      var tmp := new Chain(toAlloc);
      ghost var now := Contents() + data[..remain];
      if remain > 0 { AppendToLast(data[..remain]); }
      assert Contents() == now;
      tmp.Append(data[remain..], []);
      assert [] + data[remain..] == data[remain..];
      ChainInsert(tmp, data[remain..]);
      assert now + data[remain..] == old(Contents()) + data;
    }

    /** Octets go before the data of the first chain. */
    method PrependToFirst(data: seq<byte>)
      requires Valid() && first != null && |data| <= first.misalign
      modifies this, first
      ensures Valid() && Contents() == data + old(Contents()) && spine == old(spine)
      ensures first.misalign == old(first.misalign) - |data| && (first.off > 0 ==> NoneEmpty(blocks))
      ensures first.off == old(first.off) + |data|
      ensures freezeStart == old(freezeStart) && freezeEnd == old(freezeEnd)
    {
      hide Concat, Chain.Holds, NoDup;
      GrowFirst(blocks, data);
      NoDupFirst(spine, first);
      totalLen := totalLen + |data|;
      blocks := blocks[0 := data + blocks[0]];
      first.PutBefore(data, old(blocks)[0]);
      assert forall i :: 0 <= i < |spine| ==> old(LinkAt(spine, i)) ==> LinkAt(spine, i);
    }

    method TurnFirstRound()
      requires Valid() && first != null && first.off == 0
      modifies first
      ensures Valid() && first.misalign == |first.buffer| > 0
    {
      hide Concat, Chain.Holds, NoDup;
      assert first.Holds(blocks[0]);
      NoDupFirst(spine, first);
      first.TurnRound();
      assert forall i :: 0 <= i < |spine| ==> old(LinkAt(spine, i)) ==> LinkAt(spine, i);
    }

    /** A chain with data goes before chains with data. */
    method PrependChain(chain: Chain, ghost b: seq<byte>)
      requires Valid() && first != null && NoneEmpty(blocks) && chain !in spine && chain.Holds(b) && b != []
      modifies this, chain
      ensures Valid() && Contents() == b + old(Contents()) && spine == [chain] + old(spine)
      ensures freezeStart == old(freezeStart) && freezeEnd == old(freezeEnd)
    {
      hide Concat, Chain.Holds, NoDup;
      ConcatAppend([b], blocks);
      ConcatOne(b);
      NoDupFirst(spine, chain);
      chain.next := first;
      first := chain;
      if lastWithDatap == First { lastWithDatap := NextOf(chain); }
      totalLen := totalLen + chain.off;
      spine, blocks := [chain] + spine, [b] + blocks;
      forall i | 0 <= i < |spine| ensures LinkAt(spine, i) {
        assert i > 0 ==> old(LinkAt(spine, i - 1));
      }
    }

    /** Octets go into a new chain in front. */
    method PrependNew(data: seq<byte>)
      requires Valid() && first != null && NoneEmpty(blocks) && data != []
      modifies this
      ensures Valid() && Contents() == data + old(Contents())
      ensures forall c :: c in spine ==> c in old(spine) || fresh(c)
      ensures freezeStart == old(freezeStart) && freezeEnd == old(freezeEnd)
    {
      hide Concat, Chain.Holds, NoDup, Linked, AllHold;
      var tmp := new Chain(|data|);
      tmp.TurnRound();
      tmp.PutBefore(data, []);
      assert data + [] == data;
      PrependChain(tmp, data);
    }

    /** `evbuffer_prepend`. */
    method Prepend(data: seq<byte>) returns (r: int)
      requires Valid()
      modifies this, first
      ensures Valid() && freezeStart == old(freezeStart) && freezeEnd == old(freezeEnd)
      ensures r == if freezeStart || |data| > EV_SIZE_MAX - old(totalLen) then -1 else 0
      ensures Contents() == if r == 0 then data + old(Contents()) else old(Contents())
      ensures forall c :: c in spine ==> c in old(spine) || fresh(c)
    {
      hide Concat, Chain.Holds, NoDup, Linked, AllHold;
      if freezeStart { return -1; }
      if |data| > EV_SIZE_MAX - totalLen { return -1; }
      if first == null {
        var chain := new Chain(|data|);
        ChainInsert(chain, []);
      }
      if first.off == 0 { TurnFirstRound(); }
      if first.misalign >= |data| {
        PrependToFirst(data);
        return 0;
      }
      var rest := |data| - first.misalign;
      assert data == data[..rest] + data[rest..];
      PrependToFirst(data[rest..]);
      PrependNew(data[..rest]);
      return 0;
    }

    /** One step along the chains. */
    lemma ChainAt(k: nat)
      requires Linked(spine) && AllHold(spine, blocks) && k < |spine|
      ensures spine[k].next == At(spine, k + 1)
      ensures spine[k].Holds(blocks[k]) && spine[k].off == |blocks[k]|
      ensures Start(blocks, k + 1) == Start(blocks, k) + |blocks[k]| <= |Concat(blocks)|
      ensures Start(blocks, |blocks|) == |Concat(blocks)|
    {
      assert LinkAt(spine, k);
      ConcatSplit(blocks, k);
      ConcatCut(blocks, k + 1);
      ConcatEnds(blocks);
    }

    /** memcpy of the first `n` octets of the `k`th chain. */
    method ReadAt(chain: Chain, n: nat, ghost k: nat) returns (part: seq<byte>)
      requires Linked(spine) && AllHold(spine, blocks) && k < |spine| && chain == spine[k] && n <= chain.off
      ensures Start(blocks, k) + n <= |Concat(blocks)| && part == Concat(blocks)[Start(blocks, k)..Start(blocks, k) + n]
    {
      hide Concat, Start, Chain.Holds, Linked, AllHold;
      ChainAt(k);
      InBlock(blocks, k, 0, n);
      part := chain.Read(n, blocks[k]);
    }

    /** The same, behind what was read of the chains before it. */
    method ReadOn(was: seq<byte>, chain: Chain, n: nat, ghost p: nat, ghost k: nat) returns (data: seq<byte>)
      requires Linked(spine) && AllHold(spine, blocks) && k < |spine| && chain == spine[k] && n <= chain.off
      requires p <= Start(blocks, k) <= |Concat(blocks)| && was == Concat(blocks)[p..Start(blocks, k)]
      ensures Start(blocks, k) + n <= |Concat(blocks)| && data == Concat(blocks)[p..Start(blocks, k) + n]
    {
      hide Concat, Start, Chain.Holds, Linked, AllHold;
      var part := ReadAt(chain, n, k);
      SliceJoin(Concat(blocks), p, Start(blocks, k), Start(blocks, k) + n);
      data := was + part;
    }

    /** `evbuffer_copyout`. */
    method Copyout(datlen: nat) returns (r: int, data: seq<byte>)
      requires Valid()
      ensures if datlen > 0 && totalLen > 0 && freezeStart then r == -1 && data == []
              else data == Contents()[..if datlen < totalLen then datlen else totalLen] && r == |data|
    {
      hide Concat, Start, Chain.Holds, NoDup, Linked, AllHold;
      data := [];
      var want := if datlen >= totalLen then totalLen else datlen;
      if want == 0 { return 0, []; }
      if freezeStart { return -1, []; }
      var left, chain := want, first;
      ghost var k := 0;
      ConcatEnds(blocks);
      while left > 0 && chain != null && left >= chain.off
        invariant k <= |spine| && chain == At(spine, k)
        invariant Start(blocks, k) + left == want && 0 <= left
        invariant data == Contents()[..Start(blocks, k)]
        decreases |spine| - k
      {
        ChainAt(k);
        SliceJoin(Contents(), 0, Start(blocks, k), Start(blocks, k + 1));
        var part := ReadAt(chain, chain.off, k);
        data := data + part;
        left := left - chain.off;
        chain := chain.next;
        k := k + 1;
      }
      if left > 0 {
        ConcatEnds(blocks);
        ChainAt(k);
        SliceJoin(Contents(), 0, Start(blocks, k), Start(blocks, k) + left);
        var part := ReadAt(chain, left, k);
        data := data + part;
      }
      r := |data|;
    }

    /** The first `k` chains and `n` octets of the next go. */
    method CutFront(ghost k: nat, chain: Chain, n: nat)
      requires NoDup(spine) && Linked(spine) && AllHold(spine, blocks) && (|spine| > 1 ==> NoneEmpty(blocks))
      requires last == (if spine == [] then null else spine[|spine| - 1])
      requires k < |spine| && chain == spine[k] && n < chain.off
      requires lastWithDatap == if k < |spine| - 1 then SlotAt(spine, |spine| - 1) else First
      requires totalLen == |Concat(blocks)| - Start(blocks, k) - n
      modifies this, chain
      ensures Valid() && spine == old(spine)[k..]
      ensures Start(old(blocks), k) + n <= |Concat(old(blocks))|
      ensures Contents() == Concat(old(blocks))[Start(old(blocks), k) + n..]
      ensures Prefix(old(spine), old(blocks), k)
      ensures freezeStart == old(freezeStart) && freezeEnd == old(freezeEnd)
    {
      hide Concat, Start, Chain.Holds, NoDup;
      DroppedConcat(blocks, k, n);
      NoDupCut(spine, k);
      ghost var was, bs := spine, blocks;
      PrefixOf(was, bs, k);
      hide Prefix;
      first := chain;
      spine, blocks := spine[k..], Dropped(blocks, k, n);
      chain.DropFront(n, old(blocks)[k]);
      forall i | 0 <= i < |spine| ensures LinkAt(spine, i) {
        assert old(LinkAt(spine, k + i));
      }
    }

    /** The chain after the `k`th, and which slot points to the last. */
    lemma DrainStep(k: nat)
      requires NoDup(spine) && Linked(spine) && first == At(spine, 0) && k < |spine|
      ensures spine[k].next == At(spine, k + 1)
      ensures k < |spine| - 1 ==> Deref(SlotAt(spine, |spine| - 1)) != spine[k]
      ensures |spine| > 1 ==> (SlotAt(spine, |spine| - 1) == NextOf(spine[k]) <==> k == |spine| - 2)
    {
      assert LinkAt(spine, k);
      DerefAt(|spine| - 1);
    }

    /** `evbuffer_drain`. */
    method Drain(len: nat) returns (r: int)
      requires Valid()
      modifies this, spine
      ensures Valid() && freezeStart == old(freezeStart) && freezeEnd == old(freezeEnd)
      ensures r == if old(totalLen) > 0 && freezeStart then -1 else 0
      ensures Contents() == if r < 0 then old(Contents()) else if len >= old(totalLen) then []
              else old(Contents())[len..]
      ensures forall c :: c in spine ==> c in old(spine)
    {
      hide Concat, Start, Chain.Holds, NoDup;
      if totalLen == 0 { return 0; }
      if freezeStart { return -1; }
      if len >= totalLen {
        ZeroChain();
        return 0;
      }
      DrainSome(len);
      return 0;
    }

    /** The chain in which the octet at `len` is, and where in it; `slot` is what becomes of `lastWithDatap` when
        the chains before it go. */
    method Skip(len: nat) returns (prev: Chain?, chain: Chain, remaining: nat, slot: Slot, ghost k: nat)
      requires Valid() && len < totalLen
      ensures k < |spine| && chain == spine[k] && remaining < chain.off && Start(blocks, k) + remaining == len
      ensures prev == if k == 0 then null else spine[k - 1]
      ensures slot == if k < |spine| - 1 then SlotAt(spine, |spine| - 1) else First
    {
      hide Concat, Start, Chain.Holds, NoDup, Linked, AllHold;
      prev, remaining, slot, k := null, len, lastWithDatap, 0;
      var ch := first;
      ConcatEnds(blocks);
      while ch != null && remaining >= ch.off
        invariant k <= |spine| && ch == At(spine, k) && Start(blocks, k) + remaining == len
        invariant prev == if k == 0 then null else spine[k - 1]
        invariant slot == if k < |spine| - 1 then SlotAt(spine, |spine| - 1) else First
        decreases |spine| - k
      {
        ChainAt(k);
        DrainStep(k);
        prev := ch;
        remaining := remaining - ch.off;
        if ch == Deref(slot) { slot := First; }
        if slot == NextOf(ch) { slot := First; }
        ch := ch.next;
        k := k + 1;
      }
      ConcatEnds(blocks);
      chain := ch;
    }

    method DrainSome(len: nat)
      requires Valid() && len < totalLen
      modifies this, spine
      ensures Valid() && freezeStart == old(freezeStart) && freezeEnd == old(freezeEnd)
      ensures Contents() == old(Contents())[len..]
      ensures forall c :: c in spine ==> c in old(spine)
    {
      hide Concat, Start, Chain.Holds, NoDup, Linked, AllHold;
      var prev, chain, remaining, slot, k := Skip(len);
      totalLen := totalLen - len;
      lastWithDatap := slot;
      CutFront(k, chain, remaining);
    }

    /** `evbuffer_remove`. */
    method RemoveBytes(datlen: nat) returns (r: int, data: seq<byte>)
      requires Valid()
      modifies this, spine
      ensures Valid() && freezeStart == old(freezeStart) && freezeEnd == old(freezeEnd)
      ensures if datlen > 0 && old(totalLen) > 0 && freezeStart then
                r == -1 && data == [] && Contents() == old(Contents())
              else
                && r == |data| == (if datlen < old(totalLen) then datlen else old(totalLen))
                && data + Contents() == old(Contents())
      ensures forall c :: c in spine ==> c in old(spine)
    {
      hide Concat, Chain.Holds, NoDup, Linked, AllHold;
      r, data := Copyout(datlen);
      ghost var was := Contents();
      assert was == was[..|data|] + was[|data|..];
      assert was[..0] + was == was;
      assert |data| == |was| ==> data + [] == was[..|data|] == was;
      if r > 0 {
        var d := Drain(r);
        if d < 0 { r := -1; }
      }
    }

    /** COPY_CHAIN. */
    method CopyChain(src: Evbuffer)
      requires src.Valid() && src != this
      modifies this
      ensures Valid() && spine == src.spine && blocks == src.blocks
      ensures freezeStart == old(freezeStart) && freezeEnd == old(freezeEnd)
    {
      hide Concat, Chain.Holds, NoDup, Linked, AllHold;
      first, last, totalLen := src.first, src.last, src.totalLen;
      lastWithDatap := src.lastWithDatap;
      spine, blocks := src.spine, src.blocks;
    }

    /** APPEND_CHAIN. */
    method AppendChains(src: Evbuffer)
      requires Valid() && src.Valid() && src != this && Disjoint(spine, src.spine)
      requires spine != [] && src.spine != [] && NoneEmpty(blocks) && NoneEmpty(src.blocks)
      modifies this, last
      ensures Valid() && spine == old(spine) + src.spine && blocks == old(blocks) + src.blocks
      ensures Contents() == old(Contents()) + src.Contents()
      ensures freezeStart == old(freezeStart) && freezeEnd == old(freezeEnd)
    {
      hide Concat, Chain.Holds, NoDup;
      ghost var a, b := spine, src.spine;
      NoDupJoin(a, b);
      NoDupLast(a);
      ConcatAppend(blocks, src.blocks);
      var l := last;
      lastWithDatap := if src.lastWithDatap == First then NextOf(l) else src.lastWithDatap;
      last := src.last;
      totalLen := totalLen + src.totalLen;
      spine, blocks := a + b, blocks + src.blocks;
      l.next := src.first;
      assert l in a;
      forall i | 0 <= i < |b| ensures LinkAt(b, i) {
        assert b[i] in b && old(LinkAt(b, i));
      }
      Joined(a, old(blocks), b, src.blocks, l);
      hide Linked, AllHold, NoneEmpty;
    }

    /** `evbuffer_add_buffer`: all of `inbuf` goes to the end of this buffer. */
    method AddBuffer(inbuf: Evbuffer) returns (r: int)
      requires Valid() && inbuf.Valid() && (inbuf != this ==> Disjoint(spine, inbuf.spine))
      modifies this, inbuf, last
      ensures Valid() && inbuf.Valid()
      ensures var nop := old(inbuf.totalLen) == 0 || inbuf == this;
              && r == (if !nop && old(freezeEnd || inbuf.freezeStart) then -1 else 0)
              && (nop || r < 0 ==> Contents() == old(Contents()) && inbuf.Contents() == old(inbuf.Contents()))
              && (!nop && r == 0 ==> Contents() == old(Contents()) + old(inbuf.Contents()) && inbuf.Contents() == [])
      ensures freezeStart == old(freezeStart) && freezeEnd == old(freezeEnd)
      ensures inbuf.freezeStart == old(inbuf.freezeStart) && inbuf.freezeEnd == old(inbuf.freezeEnd)
      ensures inbuf != this ==> Disjoint(spine, inbuf.spine)
      ensures forall c :: c in spine || c in inbuf.spine ==> c in old(spine) || c in old(inbuf.spine) || fresh(c)
    {
      hide Concat, Chain.Holds, NoDup, Linked, AllHold;
      if inbuf.totalLen == 0 || inbuf == this { return 0; }
      if freezeEnd || inbuf.freezeStart { return -1; }
      inbuf.SomeData();
      if totalLen == 0 {
        CopyChain(inbuf);
        assert old(Contents()) + inbuf.Contents() == inbuf.Contents();
      } else {
        SomeData();
        AppendChains(inbuf);
      }
      inbuf.ZeroChain();
      return 0;
    }

    /** A buffer that holds something has no empty chain. */
    lemma SomeData()
      requires Valid() && totalLen > 0
      ensures spine != [] && NoneEmpty(blocks)
    {
      if |blocks| == 1 {
        ConcatOne(blocks[0]);
        assert blocks == [blocks[0]];
      }
    }

    /** PREPEND_CHAIN, of two buffers that hold something. */
    method PrependChains(src: Evbuffer)
      requires Valid() && src.Valid() && src != this && Disjoint(src.spine, spine)
      requires spine != [] && src.spine != [] && NoneEmpty(blocks) && NoneEmpty(src.blocks)
      modifies this, src.last
      ensures Valid() && spine == src.spine + old(spine) && blocks == src.blocks + old(blocks)
      ensures Contents() == src.Contents() + old(Contents())
      ensures freezeStart == old(freezeStart) && freezeEnd == old(freezeEnd)
    {
      hide Concat, Chain.Holds, NoDup;
      ghost var a, b := src.spine, spine;
      NoDupJoin(a, b);
      NoDupLast(a);
      ConcatAppend(src.blocks, blocks);
      var l := src.last;
      l.next := first;
      first := src.first;
      totalLen := totalLen + src.totalLen;
      if lastWithDatap == First { lastWithDatap := NextOf(l); }
      spine, blocks := a + b, src.blocks + blocks;
      assert l in a;
      forall i | 0 <= i < |b| ensures LinkAt(b, i) {
        assert b[i] in b && old(LinkAt(b, i));
      }
      Joined(a, src.blocks, b, old(blocks), l);
      hide Linked, AllHold, NoneEmpty;
    }

    /** `evbuffer_prepend_buffer`: all of `inbuf` goes to the front of this buffer. */
    method PrependBuffer(inbuf: Evbuffer) returns (r: int)
      requires Valid() && inbuf.Valid() && (inbuf != this ==> Disjoint(inbuf.spine, spine))
      modifies this, inbuf, inbuf.last
      ensures Valid() && inbuf.Valid()
      ensures var nop := old(inbuf.totalLen) == 0 || inbuf == this;
              && r == (if !nop && old(freezeStart || inbuf.freezeStart) then -1 else 0)
              && (nop || r < 0 ==> Contents() == old(Contents()) && inbuf.Contents() == old(inbuf.Contents()))
              && (!nop && r == 0 ==> Contents() == old(inbuf.Contents()) + old(Contents()) && inbuf.Contents() == [])
      ensures freezeStart == old(freezeStart) && freezeEnd == old(freezeEnd)
      ensures inbuf.freezeStart == old(inbuf.freezeStart) && inbuf.freezeEnd == old(inbuf.freezeEnd)
      ensures inbuf != this ==> Disjoint(spine, inbuf.spine)
      ensures forall c :: c in spine || c in inbuf.spine ==> c in old(spine) || c in old(inbuf.spine) || fresh(c)
    {
      hide Concat, Chain.Holds, NoDup, Linked, AllHold;
      if inbuf.totalLen == 0 || inbuf == this { return 0; }
      if freezeStart || inbuf.freezeStart { return -1; }
      inbuf.SomeData();
      if totalLen == 0 {
        CopyChain(inbuf);
        assert inbuf.Contents() + old(Contents()) == inbuf.Contents();
      } else {
        SomeData();
        PrependChains(inbuf);
      }
      inbuf.ZeroChain();
      return 0;
    }

    /** `evbuffer_free_trailing_empty_chains`: an empty chain goes; the result points behind the last chain. */
    method FreeTrailing() returns (ch: Slot)
      requires Valid()
      modifies this
      ensures Valid() && NoneEmpty(blocks) && ch == SlotAt(spine, |spine|) && Contents() == old(Contents())
      ensures (spine == old(spine) && last == old(last)) || (spine == [] && ch == First)
      ensures freezeStart == old(freezeStart) && freezeEnd == old(freezeEnd)
    {
      hide Concat, NoDup;
      ch := lastWithDatap;
      ghost var k := if spine == [] then 0 else |spine| - 1;
      DerefAt(k);
      DerefAt(|spine|);
      while Deref(ch) != null && Deref(ch).off != 0
        invariant |spine| - 1 <= k <= |spine| && ch == SlotAt(spine, k)
        invariant k == |spine| > 0 ==> blocks[k - 1] != []
        decreases |spine| - k
      {
        ch := NextOf(Deref(ch));
        k := k + 1;
      }
      if Deref(ch) != null {
        assert blocks == [blocks[0]];
        ConcatOne(blocks[0]);
        ZeroChain();
      }
    }

    lemma OffAt(k: nat)
      requires Linked(spine) && AllHold(spine, blocks) && k < |spine|
      ensures spine[k].next == At(spine, k + 1)
      ensures k + 1 < |spine| ==> (spine[k + 1].off == 0 <==> blocks[k + 1] == [])
    {
      assert LinkAt(spine, k);
    }

    /** `advance_last_with_data`: past the chains with data that follow the slot, up to the first without. */
    method AdvanceLastWithData(ghost j: nat) returns (n: nat)
      requires Linked(spine) && AllHold(spine, blocks) && first == At(spine, 0)
      requires j <= |spine| && lastWithDatap == SlotAt(spine, j)
      modifies this`lastWithDatap
      ensures j + n <= |spine| && lastWithDatap == SlotAt(spine, j + n)
      ensures forall i :: j < i <= j + n ==> i < |spine| && blocks[i] != []
      ensures j + n + 1 < |spine| ==> blocks[j + n + 1] == []
      ensures NoneEmpty(blocks) && j < |spine| ==> j + n == |spine| - 1
      ensures Linked(spine) && AllHold(spine, blocks)
    {
      hide Linked, AllHold;
      n := 0;
      DerefAt(j);
      if Deref(lastWithDatap) == null { return; }
      OffAt(j);
      while Deref(lastWithDatap).next != null && Deref(lastWithDatap).next.off != 0
        invariant j + n < |spine| && lastWithDatap == SlotAt(spine, j + n) && Deref(lastWithDatap) == spine[j + n]
        invariant spine[j + n].next == At(spine, j + n + 1)
        invariant j + n + 1 < |spine| ==> (spine[j + n + 1].off == 0 <==> blocks[j + n + 1] == [])
        invariant forall i :: j < i <= j + n ==> blocks[i] != []
        decreases |spine| - n
      {
        OffAt(j + n + 1);
        lastWithDatap := NextOf(Deref(lastWithDatap));
        n := n + 1;
      }
    }

    /** A list of chains becomes this buffer, which has none. */
    method AdoptChains(f: Chain, l: Chain, nread: nat, ghost part: seq<Chain>, ghost bs: Blocks)
      requires Valid() && spine == [] && NoDup(part) && Linked(part) && AllHold(part, bs) && NoneEmpty(bs)
      requires part != [] && f == part[0] && l == part[|part| - 1] && nread == |Concat(bs)|
      modifies this
      ensures Valid() && spine == part && blocks == bs && Contents() == old(Contents()) + Concat(bs)
      ensures freezeStart == old(freezeStart) && freezeEnd == old(freezeEnd)
    {
      hide Concat, Chain.Holds, NoDup;
      ConcatNone();
      assert Concat(blocks) + Concat(bs) == Concat(bs);
      first, last, totalLen := f, l, totalLen + nread;
      spine, blocks := part, bs;
      var n := AdvanceLastWithData(0);
    }

    /** A list of chains goes behind those of this buffer. */
    method ChainOn(f: Chain, l: Chain, nread: nat, ghost part: seq<Chain>, ghost bs: Blocks)
      requires Valid() && spine != [] && NoneEmpty(blocks)
      requires NoDup(part) && Disjoint(spine, part) && Linked(part) && AllHold(part, bs) && NoneEmpty(bs)
      requires part != [] && f == part[0] && l == part[|part| - 1] && nread == |Concat(bs)|
      modifies this, last
      ensures Valid() && spine == old(spine) + part && Contents() == old(Contents()) + Concat(bs)
      ensures freezeStart == old(freezeStart) && freezeEnd == old(freezeEnd)
    {
      hide Concat, Chain.Holds, NoDup;
      ghost var a, x := spine, blocks;
      NoDupJoin(a, part);
      NoDupLast(a);
      ConcatAppend(x, bs);
      var end := last;
      last, totalLen := l, totalLen + nread;
      spine, blocks := a + part, x + bs;
      end.next := f;
      assert end in a;
      forall i | 0 <= i < |part| ensures LinkAt(part, i) {
        assert part[i] in part && old(LinkAt(part, i));
      }
      Joined(a, x, part, bs, end);
      hide Linked, AllHold, NoneEmpty;
      var n := AdvanceLastWithData(|a| - 1);
    }

    /** Whole chains of another buffer, up to `prev`, go to the end of this one. */
    method TakeChains(f: Chain, prev: Chain, nread: nat, ghost part: seq<Chain>, ghost bs: Blocks)
      requires Valid() && NoDup(part) && Disjoint(spine, part) && AllHold(part, bs) && NoneEmpty(bs)
      requires part != [] && f == part[0] && prev == part[|part| - 1] && nread == |Concat(bs)|
      requires forall i :: 0 <= i < |part| - 1 ==> LinkAt(part, i)
      modifies this, last, prev
      ensures Valid() && Contents() == old(Contents()) + Concat(bs) && last == prev
      ensures forall c :: c in spine ==> c in old(spine) || c in part
      ensures freezeStart == old(freezeStart) && freezeEnd == old(freezeEnd)
    {
      hide Concat, NoDup, Linked, AllHold, NoneEmpty;
      var chp := FreeTrailing();
      CutAfter(prev, part, bs);
      if first == null {
        AdoptChains(f, prev, nread, part, bs);
      } else {
        ChainOn(f, prev, nread, part, bs);
      }
    }

    /** `prev` becomes the end of its list. */
    method CutAfter(prev: Chain, ghost part: seq<Chain>, ghost bs: Blocks)
      requires Valid() && NoDup(part) && Disjoint(spine, part) && AllHold(part, bs)
      requires part != [] && prev == part[|part| - 1]
      requires forall i :: 0 <= i < |part| - 1 ==> LinkAt(part, i)
      modifies prev
      ensures Valid() && Linked(part) && AllHold(part, bs)
    {
      hide Concat, Chain.Holds, NoDup;
      NoDupLast(part);
      EndsWith(part, prev);
      ghost var s := spine;
      prev.next := null;
      forall i | 0 <= i < |s| ensures LinkAt(s, i) {
        assert s[i] in s && old(LinkAt(s, i));
      }
      forall i | 0 <= i < |part| ensures LinkAt(part, i) {
        assert i < |part| - 1 ==> old(LinkAt(part, i));
      }
    }

    /** The first `n` octets of this buffer leave it: whole chains up to `prev`, and a copy of `data` from the next. */
    method SplitFront(n: nat)
      returns (f: Chain, prev: Chain?, data: seq<byte>, ghost part: seq<Chain>, ghost bs: Blocks)
      requires Valid() && n < totalLen
      modifies this, spine
      ensures Valid() && Contents() == old(Contents())[n..]
      ensures part + spine == old(spine) && NoDup(part + spine) && AllHold(part, bs) && NoneEmpty(bs)
      ensures forall i :: 0 <= i < |part| - 1 ==> LinkAt(part, i)
      ensures if part == [] then prev == null else f == part[0] && prev == part[|part| - 1]
      ensures Concat(bs) + data == old(Contents())[..n]
      ensures freezeStart == old(freezeStart) && freezeEnd == old(freezeEnd)
    {
      hide Concat, Start, Chain.Holds, NoDup, Linked, AllHold, NoneEmpty, SlotAt;
      var before, chain, remaining, slot, k := Skip(n);
      prev, f := before, first;
      part, bs := spine[..k], blocks[..k];
      ChainAt(k);
      data := chain.Read(remaining, blocks[k]);
      FrontOf(blocks, k, remaining);
      SomeData();
      NoneEmptyCut(blocks, k);
      assert part + spine[k..] == spine;
      totalLen := totalLen - n;
      lastWithDatap := slot;
      CutFront(k, chain, remaining);
    }

    /** `evbuffer_remove_buffer`: up to `datlen` octets go from this buffer to the end of `dst`, whole chains where
        possible. */
    method RemoveBuffer(dst: Evbuffer, datlen: nat) returns (r: int)
      requires Valid() && dst.Valid() && (dst != this ==> Disjoint(dst.spine, spine))
      requires totalLen + dst.totalLen <= EV_SIZE_MAX
      modifies this, spine, dst, dst.last
      ensures Valid() && dst.Valid()
      ensures var nop := datlen == 0 || dst == this;
              && r == (if nop then 0 else if old(dst.freezeEnd || freezeStart) then -1
                       else if datlen < old(totalLen) then datlen else old(totalLen))
              && (nop || r < 0 ==> Contents() == old(Contents()) && dst.Contents() == old(dst.Contents()))
              && (!nop && r >= 0 ==>
                Contents() == old(Contents())[r..] && dst.Contents() == old(dst.Contents()) + old(Contents())[..r])
      ensures freezeStart == old(freezeStart) && freezeEnd == old(freezeEnd)
      ensures dst.freezeStart == old(dst.freezeStart) && dst.freezeEnd == old(dst.freezeEnd)
      ensures dst != this ==> Disjoint(spine, dst.spine)
      ensures forall c :: c in spine || c in dst.spine ==> c in old(spine) || c in old(dst.spine) || fresh(c)
    {
      hide Concat, Chain.Holds, NoDup, Linked, AllHold, NoneEmpty, SlotAt;
      if datlen == 0 || dst == this { return 0; }
      if dst.freezeEnd || freezeStart { return -1; }
      if datlen >= totalLen {
        r := totalLen;
        assert Contents()[..r] == Contents() && Contents()[r..] == [] && dst.Contents() + [] == dst.Contents();
        var added := dst.AddBuffer(this);
        return;
      }
      var f, prev, data, part, bs := SplitFront(datlen);
      assert forall c :: c in dst.spine ==> c !in old(spine);
      assert forall c :: c in dst.spine ==> unchanged(c);
      assert forall k :: 0 <= k < |dst.spine| ==> dst.spine[k] in dst.spine;
      assert dst.Valid();
      DisjointParts(dst.spine, part, spine);
      if part != [] {
        EndsWith(part, prev);
        assert prev in part + spine;
      }
      if prev != null {
        var nread := datlen - |data|;
        dst.TakeChains(f, prev, nread, part, bs);
      } else {
        NothingTaken(bs);
        assert old(dst.Contents()) + Concat(bs) == old(dst.Contents());
      }
      ConcatAssoc(old(dst.Contents()), Concat(bs), data);
      var added := dst.Add(data);
      r := datlen;
    }

    /** Copies `size` octets, from the `k0`th chain on, and notes which chains are used up. */
    method Gather(start: Chain, size: nat, ghost k0: nat)
      returns (data: seq<byte>, chain: Chain?, left: nat, removedData: bool, removedDatap: bool, ghost k: nat)
      requires Valid() && |spine| > 1 && k0 < |spine| && start == spine[k0] && Start(blocks, k0) + size <= totalLen
      ensures k0 <= k <= |spine| && chain == At(spine, k) && Start(blocks, k) + left == Start(blocks, k0) + size
      ensures if k < |spine| then left < |blocks[k]| else left == 0
      ensures data == Concat(blocks)[Start(blocks, k0)..Start(blocks, k0) + size]
      ensures removedData == (k == |spine|) && removedDatap == (k0 <= |spine| - 2 < k)
    {
      hide Concat, Start, Chain.Holds, NoDup, Linked, AllHold, NoneEmpty, SlotAt;
      data, chain, left, removedData, removedDatap, k := [], start, size, false, false, k0;
      DerefAt(|spine| - 1);
      var lastWithData := Deref(lastWithDatap);
      while chain != null && left >= chain.off
        invariant k0 <= k <= |spine| && chain == At(spine, k) && Start(blocks, k) + left == Start(blocks, k0) + size
        invariant Start(blocks, k0) <= Start(blocks, k) <= |Concat(blocks)|
        invariant data == Concat(blocks)[Start(blocks, k0)..Start(blocks, k)]
        invariant removedData == (k == |spine|) && removedDatap == (k0 <= |spine| - 2 < k)
        decreases |spine| - k
      {
        ChainAt(k);
        DrainStep(k);
        data := ReadOn(data, chain, chain.off, Start(blocks, k0), k);
        left := left - chain.off;
        if chain == lastWithData { removedData := true; }
        if lastWithDatap == NextOf(chain) { removedDatap := true; }
        chain := chain.next;
        k := k + 1;
      }
      ConcatEnds(blocks);
      if chain != null {
        ChainAt(k);
        data := ReadOn(data, chain, left, Start(blocks, k0), k);
      }
    }

    /** The buffer is now `tmp`, followed by the chains of `rest` without the first `left` octets. */
    method Regroup(tmp: Chain, chain: Chain, left: nat, removedDatap: bool,
                   ghost b: seq<byte>, ghost rest: seq<Chain>, ghost restBlocks: Blocks)
      requires NoDup([tmp] + rest) && Linked(rest) && AllHold(rest, restBlocks) && NoneEmpty(restBlocks)
      requires tmp.Holds(b) && b != [] && rest != [] && chain == rest[0] && left < |restBlocks[0]|
               && last == rest[|rest| - 1]
      requires if |rest| == 1 then removedDatap || lastWithDatap == NextOf(tmp)
               else !removedDatap && lastWithDatap == SlotAt(rest, |rest| - 1)
      requires totalLen == |b| + |Concat(restBlocks)| - left
      modifies this, tmp, chain
      ensures Valid() && first == tmp && tmp.Holds(b)
      ensures left <= |Concat(restBlocks)| && Contents() == b + Concat(restBlocks)[left..]
      ensures spine == [tmp] + rest && freezeStart == old(freezeStart) && freezeEnd == old(freezeEnd)
    {
      hide Concat, Chain.Holds, NoDup, Linked, AllHold, NoneEmpty, Dropped;
      RegroupBlocks(b, restBlocks, left);
      first := tmp;
      spine, blocks := [tmp] + rest, [b] + Dropped(restBlocks, 0, left);
      DropFirst(chain, left, rest, restBlocks, tmp);
      LinkFront(tmp, b, chain, rest, Dropped(restBlocks, 0, left));
      if removedDatap {
        lastWithDatap := if first.next != null && first.next.off != 0 then NextOf(first) else First;
      }
    }

    /** One chain alone holds everything. */
    lemma OneHoldsAll()
      requires Valid() && first != null
      ensures |spine| == 1 ==> first.off == totalLen
    {
      if |spine| == 1 {
        ConcatOne(blocks[0]);
        assert blocks == [blocks[0]];
      }
    }

    /** What `tmp` holds replaces the first `size` octets. */
    method Replace(tmp: Chain, chain: Chain?, left: nat, removedDatap: bool, ghost b: seq<byte>, ghost k: nat)
      requires k <= |spine| == |blocks| && tmp !in spine[k..] && NoDup(spine[k..])
      requires Linked(spine[k..]) && AllHold(spine[k..], blocks[k..]) && NoneEmpty(blocks[k..])
      requires tmp.Holds(b) && b != [] && chain == At(spine, k)
      requires k < |spine| ==> left < |blocks[k]| && last == spine[|spine| - 1]
      requires k == |spine| ==> left == 0
      requires k == |spine| - 1 ==> removedDatap || lastWithDatap == NextOf(tmp)
      requires k < |spine| - 1 ==> !removedDatap && lastWithDatap == SlotAt(spine, |spine| - 1)
      requires totalLen == |b| + |Concat(blocks[k..])| - left
      modifies this, tmp, chain
      ensures Valid() && first == tmp && tmp.Holds(b)
      ensures left <= |Concat(old(blocks[k..]))| && Contents() == b + Concat(old(blocks[k..]))[left..]
      ensures freezeStart == old(freezeStart) && freezeEnd == old(freezeEnd)
      ensures forall c :: c in spine ==> c == tmp || c in old(spine)
    {
      hide Concat, Chain.Holds, NoDup, Linked, AllHold, NoneEmpty;
      if chain == null {
        tmp.next := null;
        NothingTaken(blocks[k..]);
        assert b + [] == b;
        OneChain(tmp, b);
      } else {
        NoDupFirst(spine[k..], tmp);
        Regroup(tmp, chain, left, removedDatap, b, spine[k..], blocks[k..]);
      }
    }

    /** `evbuffer_pullup` where the first chain has room behind its data. */
    method PullIntoFirst(size: nat)
      requires Valid() && first != null && first.off < size <= totalLen && first.misalign + size <= |first.buffer|
      modifies this, spine
      ensures Valid() && Contents() == old(Contents()) && first != null && size <= totalLen
              && first.Holds(Contents()[..size])
      ensures forall c :: c in spine ==> c in old(spine)
      ensures freezeStart == old(freezeStart) && freezeEnd == old(freezeEnd)
    {
      hide Concat, Start, Chain.Holds, NoDup, Linked, AllHold, NoneEmpty;
      OneHoldsAll();
      ChainAt(0);
      SomeData();
      ConcatEnds(blocks);
      var data, chain, left, removedData, removedDatap, k := Gather(first.next, size - first.off, 1);
      PulledFirst(blocks, size);
      ConcatCut(blocks, k);
      SuffixOf(spine, blocks, k);
      Remaining(Contents(), size, Start(blocks, k), left);
      ghost var rest, restBlocks := spine[k..], blocks[k..];
      first.Append(data, blocks[0]);
      assert Linked(rest) && AllHold(rest, restBlocks);
      Replace(first, chain, left, removedDatap, Concat(blocks)[..size], k);
    }

    /** `evbuffer_pullup` into a new chain. */
    method PullIntoNew(size: nat)
      requires Valid() && first != null && first.off < size <= totalLen
      modifies this, spine
      ensures Valid() && Contents() == old(Contents()) && first != null && size <= totalLen
              && first.Holds(Contents()[..size])
      ensures forall c :: c in spine ==> c in old(spine) || fresh(c)
      ensures freezeStart == old(freezeStart) && freezeEnd == old(freezeEnd)
    {
      hide Concat, Start, Chain.Holds, NoDup, Linked, AllHold, NoneEmpty;
      OneHoldsAll();
      SomeData();
      ConcatEnds(blocks);
      var tmp := new Chain(size);
      var data, chain, left, removedData, removedDatap, k := Gather(first, size, 0);
      ConcatCut(blocks, k);
      SuffixOf(spine, blocks, k);
      Remaining(Contents(), size, Start(blocks, k), left);
      assert [] + data == Contents()[..size];
      tmp.Append(data, []);
      Replace(tmp, chain, left, removedDatap, Contents()[..size], k);
    }

    /** `evbuffer_pullup`: afterwards the first `size` octets, or all of them when it is negative, lie in one block. */
    method Pullup(size: int) returns (ok: bool)
      requires Valid()
      modifies this, spine
      ensures Valid() && Contents() == old(Contents()) && freezeStart == old(freezeStart) && freezeEnd == old(freezeEnd)
      ensures var n := if size < 0 then totalLen else size;
              ok == (0 < n <= totalLen)
              && (ok ==> first != null && n <= first.off && first.misalign + first.off <= |first.buffer|
                         && first.buffer[first.misalign..first.misalign + n] == Contents()[..n])
      ensures forall c :: c in spine ==> c in old(spine) || fresh(c)
    {
      hide Concat, NoDup, Linked, AllHold, NoneEmpty;
      var n := if size < 0 then totalLen else size;
      if n == 0 || n > totalLen { return false; }
      SomeData();
      ChainAt(0);
      if first.off >= n {
        InBlock(blocks, 0, 0, n);
        ConcatEnds(blocks);
        assert first.buffer[first.misalign..first.misalign + n] == blocks[0][0..n];
      } else if |first.buffer| - first.misalign >= n {
        PullIntoFirst(n);
      } else {
        PullIntoNew(n);
      }
      ok := true;
    }
  }

  /** The first `left` octets of a list go. */
  method DropFirst(chain: Chain, left: nat, ghost rest: seq<Chain>, ghost restBlocks: Blocks, ghost tmp: Chain)
    requires NoDup([tmp] + rest) && Linked(rest) && AllHold(rest, restBlocks) && NoneEmpty(restBlocks)
    requires rest != [] && chain == rest[0] && left < |restBlocks[0]|
    modifies chain
    ensures Linked(rest) && AllHold(rest, Dropped(restBlocks, 0, left)) && NoneEmpty(Dropped(restBlocks, 0, left))
    ensures chain.off > 0 && chain != tmp
  {
    hide Concat, Chain.Holds, NoDup;
    NoDupFirst([tmp] + rest, tmp);
    NoDupCut([tmp] + rest, 1);
    chain.DropFront(left, restBlocks[0]);
    forall i | 0 <= i < |rest| ensures LinkAt(rest, i) {
      assert old(LinkAt(rest, i));
    }
    forall i | 1 <= i < |rest| ensures rest[i].Holds(restBlocks[i]) {
      assert ([tmp] + rest)[i + 1] == rest[i] && ([tmp] + rest)[1] == chain;
      assert old(rest[i].Holds(restBlocks[i]));
    }
  }

  /** A chain is linked before a list. */
  method LinkFront(tmp: Chain, ghost b: seq<byte>, chain: Chain, ghost rest: seq<Chain>, ghost bs: Blocks)
    requires NoDup([tmp] + rest) && Linked(rest) && AllHold(rest, bs) && NoneEmpty(bs) && tmp.Holds(b) && b != []
    requires rest != [] && chain == rest[0]
    modifies tmp`next
    ensures Linked([tmp] + rest) && AllHold([tmp] + rest, [b] + bs) && NoneEmpty([b] + bs) && tmp.next == chain
  {
    hide Concat, Chain.Holds, NoDup;
    NoDupFirst([tmp] + rest, tmp);
    tmp.next := chain;
    forall i | 0 <= i < |rest| ensures LinkAt(rest, i) {
      assert ([tmp] + rest)[i + 1] == rest[i];
      assert old(LinkAt(rest, i));
    }
    Joined([tmp], [b], rest, bs, tmp);
  }

  lemma RegroupBlocks(b: seq<byte>, rest: Blocks, left: nat)
    requires rest != [] && left <= |rest[0]|
    ensures left <= |Concat(rest)| && Concat([b] + Dropped(rest, 0, left)) == b + Concat(rest)[left..]
    ensures |Dropped(rest, 0, left)| == |rest| && Dropped(rest, 0, left)[0] == rest[0][left..]
    ensures forall i :: 1 <= i < |rest| ==> Dropped(rest, 0, left)[i] == rest[i]
  {
    DroppedConcat(rest, 0, left);
    ConcatEnds(rest);
    ConcatAppend([b], Dropped(rest, 0, left));
    ConcatOne(b);
    hide Concat;
  }

  lemma SuffixOf(spine: seq<Chain>, blocks: Blocks, k: nat)
    requires k <= |spine| && Linked(spine) && AllHold(spine, blocks) && NoDup(spine) && NoneEmpty(blocks)
    ensures Linked(spine[k..]) && AllHold(spine[k..], blocks[k..]) && NoDup(spine[k..]) && NoneEmpty(blocks[k..])
    ensures k > 0 ==> spine[0] !in spine[k..]
  {
    hide Chain.Holds;
    var rest := spine[k..];
    forall i | 0 <= i < |rest| ensures LinkAt(rest, i) {
      assert LinkAt(spine, k + i);
    }
  }

  /** The first block, and what is copied behind it. */
  lemma PulledFirst(bs: Blocks, size: nat)
    requires bs != [] && |bs[0]| <= size <= |Concat(bs)|
    ensures Start(bs, 1) == |bs[0]| && bs[0] + Concat(bs)[Start(bs, 1)..size] == Concat(bs)[..size]
  {
    ConcatSplit(bs, 0);
    hide Concat;
  }

  lemma Remaining(s: seq<byte>, size: nat, start: nat, left: nat)
    requires start + left == size <= |s|
    ensures s[..size] + s[start..][left..] == s
  {
  }

  lemma SliceJoin(s: seq<byte>, a: nat, b: nat, c: nat)
    requires a <= b <= c <= |s|
    ensures s[a..b] + s[b..c] == s[a..c]
  {
  }

  lemma DisjointParts(d: seq<Chain>, a: seq<Chain>, b: seq<Chain>)
    requires Disjoint(d, a + b) && NoDup(a + b)
    ensures Disjoint(d, a) && Disjoint(d, b) && Disjoint(a, b) && NoDup(a) && NoDup(b)
  {
    var ab := a + b;
    assert forall c :: c in a || c in b ==> c in ab;
    forall i, j | 0 <= i < |a| && 0 <= j < |b| ensures a[i] != b[j] {
      assert ab[i] != ab[|a| + j];
    }
    forall i, j | 0 <= i < j < |a| ensures a[i] != a[j] {
      assert ab[i] != ab[j];
    }
    forall i, j | 0 <= i < j < |b| ensures b[i] != b[j] {
      assert ab[|a| + i] != ab[|a| + j];
    }
  }

  lemma NothingTaken(bs: Blocks)
    ensures bs == [] ==> Concat(bs) == []
  {
  }

  lemma PrefixOf(spine: seq<Chain>, blocks: Blocks, k: nat)
    requires k <= |spine| && Linked(spine) && AllHold(spine, blocks)
    ensures Prefix(spine, blocks, k)
  {
    forall i | 0 <= i < k - 1 ensures LinkAt(spine[..k], i) {
      assert LinkAt(spine, i);
    }
  }

  lemma NoneEmptyCut(bs: Blocks, k: nat)
    requires NoneEmpty(bs) && k <= |bs|
    ensures NoneEmpty(bs[..k])
  {
  }

  lemma ConcatNone()
    ensures Concat([]) == []
  {
  }

  /** After the last chain `l` of `a` has been linked to `b`. */
  lemma Joined(a: seq<Chain>, x: Blocks, b: seq<Chain>, y: Blocks, l: Chain)
    requires a != [] && l == a[|a| - 1] && l.next == At(b, 0) && Linked(b) && AllHold(b, y)
    requires forall i :: 0 <= i < |a| - 1 ==> LinkAt(a, i)
    requires AllHold(a, x) && NoneEmpty(x) && NoneEmpty(y)
    ensures Linked(a + b) && AllHold(a + b, x + y) && NoneEmpty(x + y)
  {
    hide Linked, AllHold, NoneEmpty, LinkAt;
    JoinLinked(a, b);
    JoinHold(a, x, b, y);
  }

  lemma EndsWith(a: seq<Chain>, l: Chain)
    requires a != [] && l == a[|a| - 1]
    ensures l in a
  {
  }
}
