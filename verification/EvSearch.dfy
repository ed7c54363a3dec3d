/**
 Searching an evbuffer (libevent/buffer.c).  The functions walk from chain to chain with a cursor; what they find is
 what a search of the flat octets finds, however these are cut into chains.
 */
module EvSearch {
  import opened Common
  import opened Lists
  import opened EvBlocks
  import opened EvBuffer

  const EV_SSIZE_MAX: nat := 0x7fff_ffff_ffff_ffff
  const CR: byte := 13
  const LF: byte := 10
  const CHUNK_SZ: nat := 128

  /** `struct evbuffer_ptr`. */
  datatype Ptr = Ptr(pos: int, chain: Chain?, posInChain: nat)

  datatype How = Set | Plus

  /** The cursor is in the `k`th chain, or behind the last. */
  ghost predicate PtrAt(buf: Evbuffer, it: Ptr, k: nat)
    reads buf
  {
    && k <= |buf.spine| == |buf.blocks| && it.chain == At(buf.spine, k)
    && (if k < |buf.spine| then it.posInChain <= |buf.blocks[k]| else it.posInChain == 0)
    && it.pos == Start(buf.blocks, k) + it.posInChain
  }

  ghost predicate PtrOk(buf: Evbuffer, it: Ptr)
    reads buf
  {
    exists k :: PtrAt(buf, it, k)
  }

  /** `w` is in `s` at `j`. */
  predicate Occurs(s: seq<byte>, w: seq<byte>, j: int) {
    0 <= j && j + |w| <= |s| && s[j..j + |w|] == w
  }

  /** `r` is the first place, from `p` on, at which `w` is in `s`. */
  predicate IsFirst(s: seq<byte>, w: seq<byte>, p: int, r: int) {
    p <= r && Occurs(s, w, r) && forall j :: p <= j < r ==> !Occurs(s, w, j)
  }

  /** memchr over `[i, n)`; `n` when there is none. */
  method MemChr(chain: Chain, i: nat, n: nat, c: byte, ghost b: seq<byte>) returns (r: nat)
    requires chain.Holds(b) && i <= n <= |b|
    ensures i <= r <= n && (r < n ==> b[r] == c) && forall j :: i <= j < r ==> b[j] != c
  {
    r := i;
    while r < n && chain.buffer[chain.misalign + r] != c
      invariant i <= r <= n && forall j :: i <= j < r ==> b[j] != c
    {
      r := r + 1;
    }
  }

  /** An octet of the flat sequence, and of a block. */
  lemma ByteAt(bs: Blocks, k: nat, i: nat)
    requires k < |bs| && i < |bs[k]|
    ensures Start(bs, k) + i < |Concat(bs)| && Concat(bs)[Start(bs, k) + i] == bs[k][i]
  {
    InBlock(bs, k, 0, |bs[k]|);
    var s := Concat(bs)[Start(bs, k) + 0..Start(bs, k) + |bs[k]|];
    assert s[i] == Concat(bs)[Start(bs, k) + i];
  }

  /** `evbuffer_ptr_memcmp`: 0 exactly when `mem` is in the buffer at `it`. */
  method PtrMemcmp(buf: Evbuffer, it: Ptr, mem: seq<byte>) returns (r: int)
    requires buf.Valid() && (it.pos < 0 || PtrOk(buf, it)) && buf.totalLen <= EV_SIZE_MAX
    ensures r == 0 <==> Occurs(buf.Contents(), mem, it.pos)
  {
    hide Concat, Start, Chain.Holds, NoDup, Linked, AllHold, NoneEmpty, SameFor, Occurs;
    OccursBounds(buf.Contents(), mem, it.pos);
    if it.pos < 0 || EV_SIZE_MAX - |mem| < it.pos || it.pos + |mem| > buf.totalLen { return -1; }
    var done: nat, chain, position: nat := 0, it.chain, it.posInChain;
    ghost var k: nat :| PtrAt(buf, it, k);
    ghost var s := buf.Contents();
    while done < |mem| && chain != null
      invariant done <= |mem| && k <= |buf.spine| && chain == At(buf.spine, k) && SameFor(s, it.pos, mem, done)
      invariant if k < |buf.spine| then done == |mem| || position <= |buf.blocks[k]| else position == 0
      invariant done < |mem| ==> Start(buf.blocks, k) + position == it.pos + done
      decreases |buf.spine| - k
    {
      buf.ChainAt(k);
      var n := if |mem| - done + position > chain.off then chain.off - position else |mem| - done;
      r := CompareAt(buf, chain, position, mem[done..done + n], k);
      PartOf(s, mem, it.pos, done, n);
      if r != 0 { return; }
      done := done + n;
      position := 0;
      chain := chain.next;
      k := k + 1;
    }
    ConcatEnds(buf.blocks);
    PartOf(s, mem, it.pos, done, 0);
    r := 0;
  }

  lemma OccursBounds(s: seq<byte>, w: seq<byte>, j: int)
    ensures Occurs(s, w, j) ==> 0 <= j && j + |w| <= |s|
    ensures 0 <= j && j + |w| <= |s| ==> SameFor(s, j, w, 0)
  {
  }

  /** memcmp with the octets of the `k`th chain from `i` on. */
  method CompareAt(buf: Evbuffer, chain: Chain, i: nat, mem: seq<byte>, ghost k: nat) returns (r: int)
    requires buf.Valid() && k < |buf.spine| && chain == buf.spine[k] && i + |mem| <= chain.off
    ensures r == 0 <==> Occurs(buf.Contents(), mem, Start(buf.blocks, k) + i)
  {
    hide Concat, Start, Chain.Holds, NoDup, Linked, AllHold, NoneEmpty;
    buf.ChainAt(k);
    InBlock(buf.blocks, k, i, i + |mem|);
    r := chain.Compare(i, mem, buf.blocks[k]);
  }

  /** The first `n` octets of `mem` are in `s` at `pos`. */
  predicate SameFor(s: seq<byte>, pos: int, mem: seq<byte>, n: nat) {
    0 <= pos && n <= |mem| && pos + |mem| <= |s| && s[pos..pos + n] == mem[..n]
  }

  /** Equal so far, and then over `n` more octets or not. */
  lemma PartOf(s: seq<byte>, mem: seq<byte>, pos: nat, done: nat, n: nat)
    requires SameFor(s, pos, mem, done) && done + n <= |mem|
    ensures Occurs(s, mem[done..done + n], pos + done) ==> SameFor(s, pos, mem, done + n)
    ensures !Occurs(s, mem[done..done + n], pos + done) ==> !Occurs(s, mem, pos)
    ensures SameFor(s, pos, mem, |mem|) ==> Occurs(s, mem, pos)
  {
    assert s[pos..pos + done + n] == s[pos..pos + done] + s[pos + done..pos + done + n];
    assert mem[..done + n] == mem[..done] + mem[done..done + n];
    assert s[pos..pos + |mem|][done..done + n] == s[pos + done..pos + done + n];
    assert mem[..|mem|] == mem;
  }

  /** `evbuffer_ptr_set`: the cursor goes to an octet of the buffer, or nowhere. */
  method PtrSet(buf: Evbuffer, it: Ptr, position: nat, how: How) returns (r: int, it': Ptr)
    requires buf.Valid() && (how.Plus? && it.pos >= 0 ==> PtrOk(buf, it))
    ensures var bad := how.Plus? && (it.pos < 0 || EV_SIZE_MAX - position < it.pos);
            var target := if how.Plus? then it.pos + position else position;
            if bad then r == -1 && it' == it
            else if target < buf.totalLen then r == 0 && it'.pos == target && InChain(buf, it')
            else r == -1 && it'.pos == -1 && it'.chain == null
  {
    hide Concat, Start, Chain.Holds, NoDup, Linked, AllHold, NoneEmpty;
    if how.Plus? && (it.pos < 0 || EV_SIZE_MAX - position < it.pos) { return -1, it; }
    ghost var k: nat := 0;
    var chain, at: nat, target := buf.first, 0, position;
    ConcatEnds(buf.blocks);
    if how.Plus? {
      ghost var k0: nat :| PtrAt(buf, it, k0);
      k := k0;
      chain, at, target := it.chain, it.posInChain, it.pos + position;
    }
    var left := position;
    while chain != null && at + left >= chain.off
      invariant k <= |buf.spine| && chain == At(buf.spine, k) && 0 <= left
      invariant if k < |buf.spine| then at <= |buf.blocks[k]| else at == 0
      invariant Start(buf.blocks, k) + at + left == target
      decreases |buf.spine| - k
    {
      buf.ChainAt(k);
      left := left - (chain.off - at);
      chain, at := chain.next, 0;
      k := k + 1;
    }
    if chain != null {
      buf.ChainAt(k);
      r, it' := 0, Ptr(target, chain, at + left);
      assert PtrIn(buf, it', k);
    } else {
      r, it' := -1, Ptr(-1, null, 0);
    }
  }

  /** The cursor is at an octet. */
  ghost predicate PtrIn(buf: Evbuffer, it: Ptr, k: nat)
    reads buf
  {
    PtrAt(buf, it, k) && k < |buf.spine| && it.posInChain < |buf.blocks[k]|
  }

  ghost predicate InChain(buf: Evbuffer, it: Ptr)
    reads buf
  {
    exists k :: PtrIn(buf, it, k)
  }

  predicate NoneIn(s: seq<byte>, w: seq<byte>, p: int, q: int) {
    forall j :: p <= j < q ==> !Occurs(s, w, j)
  }

  lemma NoneYet(s: seq<byte>, w: seq<byte>, p: int)
    ensures NoneIn(s, w, p, p)
  {
  }

  /** A stretch without the first octet of `w`. */
  lemma NoneNext(s: seq<byte>, w: seq<byte>, p: int, q: int, q': int)
    requires w != [] && NoneIn(s, w, p, q) && 0 <= q <= q' <= |s| && forall j :: q <= j < q' ==> s[j] != w[0]
    ensures NoneIn(s, w, p, q')
    ensures !Occurs(s, w, q') ==> NoneIn(s, w, p, q' + 1)
  {
    forall j | q <= j < q' ensures !Occurs(s, w, j) {
      if j + |w| <= |s| { assert s[j..j + |w|][0] == s[j]; }
    }
  }

  lemma BlockWithout(bs: Blocks, k: nat, i: nat, i': nat, c: byte)
    requires k < |bs| && i <= i' <= |bs[k]| && forall j :: i <= j < i' ==> bs[k][j] != c
    ensures Start(bs, k) + i' <= |Concat(bs)|
    ensures forall j :: Start(bs, k) + i <= j < Start(bs, k) + i' ==> Concat(bs)[j] != c
  {
    hide Concat, Start;
    InBlock(bs, k, i, i');
    var p := Start(bs, k);
    forall j | p + i <= j < p + i' ensures Concat(bs)[j] != c {
      assert Concat(bs)[p + i..p + i'][j - p - i] == bs[k][i..i'][j - p - i];
    }
  }

  /** From a place in a chain to the next occurrence of an octet in it. */
  method NextByte(buf: Evbuffer, it: Ptr, c: byte, ghost k: nat) returns (at: nat)
    requires buf.Valid() && PtrAt(buf, it, k) && k < |buf.spine|
    ensures it.posInChain <= at <= |buf.blocks[k]| && Start(buf.blocks, k) + at <= |buf.Contents()|
    ensures forall j :: it.pos <= j < Start(buf.blocks, k) + at ==> buf.Contents()[j] != c
    ensures at < |buf.blocks[k]| ==>
              Start(buf.blocks, k) + at < |buf.Contents()| && buf.Contents()[Start(buf.blocks, k) + at] == c
  {
    hide Concat, Start, Chain.Holds, NoDup, Linked, AllHold, NoneEmpty;
    buf.ChainAt(k);
    at := MemChr(it.chain, it.posInChain, it.chain.off, c, buf.blocks[k]);
    BlockWithout(buf.blocks, k, it.posInChain, at, c);
    if at < |buf.blocks[k]| { ByteAt(buf.blocks, k, at); }
  }

  /** A place at which `w` ends by `end`. */
  predicate Fits(w: seq<byte>, j: int, end: Option<Ptr>) {
    end.Some? ==> j + |w| <= end.value.pos
  }

  /** What a search from `p` has to answer. */
  ghost predicate Found(s: seq<byte>, w: seq<byte>, p: int, end: Option<Ptr>, r: int) {
    if r >= 0 then IsFirst(s, w, p, r) && Fits(w, r, end)
    else r == -1 && forall j :: p <= j ==> !(Occurs(s, w, j) && Fits(w, j, end))
  }

  /** At the end of the chain that `end` is in, nothing fits any more. */
  lemma PastEnd(buf: Evbuffer, end: Ptr, it: Ptr, k: nat, w: seq<byte>)
    requires buf.Valid() && PtrOk(buf, end) && PtrAt(buf, it, k) && k < |buf.spine| && end.chain == it.chain
    requires it.posInChain == |buf.blocks[k]| && w != []
    ensures forall j :: it.pos <= j ==> !Fits(w, j, Some(end))
  {
    hide Concat, Start;
    var ke: nat :| PtrAt(buf, end, ke);
    assert ke == k;
  }

  lemma FoundAt(s: seq<byte>, w: seq<byte>, p: int, end: Option<Ptr>, r: int)
    requires p <= r && NoneIn(s, w, p, r) && Occurs(s, w, r)
    ensures Found(s, w, p, end, if Fits(w, r, end) then r else -1)
  {
  }

  lemma FoundNowhere(s: seq<byte>, w: seq<byte>, p: int, end: Option<Ptr>, r: int)
    requires w != [] && NoneIn(s, w, p, r) && (r == |s| || forall j :: r <= j ==> !Fits(w, j, end))
    ensures Found(s, w, p, end, -1)
  {
  }

  /** `evbuffer_search_range`: an empty needle is found at the start. */
  method SearchRange(buf: Evbuffer, what: seq<byte>, start: Option<Ptr>, end: Option<Ptr>) returns (it: Ptr)
    requires buf.Valid() && buf.totalLen <= EV_SIZE_MAX
    requires (start.Some? ==> PtrOk(buf, start.value)) && (end.Some? ==> PtrOk(buf, end.value))
    ensures var p := if start.Some? then start.value.pos else 0;
            if what == [] || |what| > EV_SSIZE_MAX then it.pos == p else Found(buf.Contents(), what, p, end, it.pos)
    ensures it.pos >= 0 ==> PtrOk(buf, it)
  {
    hide Concat, Start, Chain.Holds, NoDup, Linked, AllHold, NoneEmpty, Occurs, NoneIn, Found;
    ConcatEnds(buf.blocks);
    it := if start.Some? then start.value else Ptr(0, buf.first, 0);
    assert start.None? ==> PtrAt(buf, it, 0);
    if what == [] || |what| > EV_SSIZE_MAX { return; }
    var lastChain := if end.Some? then end.value.chain else null;
    ghost var k: nat :| PtrAt(buf, it, k);
    ghost var s, p := buf.Contents(), it.pos;
    NoneYet(s, what, p);
    while it.chain != null
      invariant PtrAt(buf, it, k) && p <= it.pos && NoneIn(s, what, p, it.pos)
      decreases |buf.spine| - k, if k < |buf.spine| then |buf.blocks[k]| - it.posInChain else 0
    {
      var chain := it.chain;
      buf.ChainAt(k);
      var at := NextByte(buf, it, what[0], k);
      NoneNext(s, what, p, it.pos, Start(buf.blocks, k) + at);
      it := it.(pos := it.pos + at - it.posInChain, posInChain := at);
      if at < chain.off {
        assert PtrAt(buf, it, k);
        var r := PtrMemcmp(buf, it, what);
        if r == 0 {
          FoundAt(s, what, p, end, it.pos);
          if end.Some? && it.pos + |what| > end.value.pos { return Ptr(-1, null, 0); }
          return;
        }
        it := it.(pos := it.pos + 1, posInChain := at + 1);
        if it.posInChain == chain.off {
          it := it.(chain := chain.next, posInChain := 0);
          k := k + 1;
        }
      } else {
        if chain == lastChain {
          PastEnd(buf, end.value, it, k, what);
          FoundNowhere(s, what, p, end, it.pos);
          return Ptr(-1, null, 0);
        }
        it := it.(chain := chain.next, posInChain := 0);
        k := k + 1;
      }
    }
    FoundNowhere(s, what, p, end, it.pos);
    it := Ptr(-1, null, 0);
  }

  // ------------------------------------------------------------ ends of lines

  predicate IsEolChar(c: byte) {
    c == CR || c == LF
  }

  /** `find_eol_char`: two memchrs over each stretch of 128 octets. */
  method FindEolChar(chain: Chain, i: nat, ghost b: seq<byte>) returns (r: nat)
    requires chain.Holds(b) && i <= |b|
    ensures i <= r <= |b| && (r < |b| ==> IsEolChar(b[r])) && forall j :: i <= j < r ==> !IsEolChar(b[j])
  {
    hide Chain.Holds;
    var at, end := i, chain.off;
    while at < end
      invariant i <= at && forall j :: i <= j < at && j < end ==> !IsEolChar(b[j])
    {
      var chunk := if at + CHUNK_SZ < end then CHUNK_SZ else end - at;
      var cr := MemChr(chain, at, at + chunk, CR, b);
      var lf := MemChr(chain, at, at + chunk, LF, b);
      if cr < at + chunk {
        return if lf < cr then lf else cr;
      } else if lf < at + chunk {
        return lf;
      }
      at := at + CHUNK_SZ;
    }
    r := end;
  }

  /** No end-of-line octet in a stretch of the flat octets. */
  predicate NoEolIn(s: seq<byte>, p: int, q: int) {
    0 <= p && q <= |s| && forall j :: p <= j < q ==> !IsEolChar(s[j])
  }

  lemma BlockWithoutEol(bs: Blocks, k: nat, i: nat, i': nat)
    requires k < |bs| && i <= i' <= |bs[k]| && forall j :: i <= j < i' ==> !IsEolChar(bs[k][j])
    ensures NoEolIn(Concat(bs), Start(bs, k) + i, Start(bs, k) + i')
  {
    BlockWithout(bs, k, i, i', CR);
    BlockWithout(bs, k, i, i', LF);
    hide Concat, Start;
  }

  /** `evbuffer_find_eol_char`: the next end-of-line octet from the cursor on. */
  method FindEol(buf: Evbuffer, start: Ptr) returns (found: bool, it: Ptr)
    requires buf.Valid() && PtrOk(buf, start)
    ensures if found then InChain(buf, it) && start.pos <= it.pos < |buf.Contents()|
                          && IsEolChar(buf.Contents()[it.pos]) && NoEolIn(buf.Contents(), start.pos, it.pos)
            else NoEolIn(buf.Contents(), start.pos, |buf.Contents()|)
  {
    hide Concat, Start, Chain.Holds, NoDup, Linked, AllHold, NoneEmpty;
    it := start;
    ghost var k: nat :| PtrAt(buf, it, k);
    ConcatCut(buf.blocks, k);
    ConcatEnds(buf.blocks);
    if k < |buf.spine| { buf.ChainAt(k); }
    while it.chain != null
      invariant PtrAt(buf, it, k) && start.pos <= it.pos && NoEolIn(buf.Contents(), start.pos, it.pos)
      decreases |buf.spine| - k
    {
      buf.ChainAt(k);
      var at := FindEolChar(it.chain, it.posInChain, buf.blocks[k]);
      BlockWithoutEol(buf.blocks, k, it.posInChain, at);
      if at < it.chain.off {
        ByteAt(buf.blocks, k, at);
        it := it.(pos := it.pos + at - it.posInChain, posInChain := at);
        assert PtrIn(buf, it, k);
        return true, it;
      }
      it := Ptr(it.pos + it.chain.off - it.posInChain, it.chain.next, 0);
      k := k + 1;
    }
    found := false;
  }

  /** A line ends at `j`: LF, or CR and LF. */
  predicate EolAt(s: seq<byte>, j: int) {
    0 <= j < |s| && (s[j] == LF || (s[j] == CR && j + 1 < |s| && s[j + 1] == LF))
  }

  /** `r` is where the first line from `p` on ends, or -1, and `n` is how long its end is. */
  ghost predicate FirstEol(s: seq<byte>, p: int, r: int, n: nat) {
    if r >= 0 then
      p <= r && EolAt(s, r) && n == (if s[r] == LF then 1 else 2) && forall j :: p <= j < r ==> !EolAt(s, j)
    else r == -1 && n == 0 && forall j :: p <= j ==> !EolAt(s, j)
  }

  predicate NoLineEnds(s: seq<byte>, p: int, q: int) {
    forall j :: p <= j < q ==> !EolAt(s, j)
  }

  lemma NoLineEndsNext(s: seq<byte>, p: int, q: int, q': int)
    requires NoLineEnds(s, p, q) && NoEolIn(s, q, q')
    ensures NoLineEnds(s, p, q') && (!EolAt(s, q') ==> NoLineEnds(s, p, q' + 1))
    ensures q' == |s| && q <= q' ==> forall j :: p <= j ==> !EolAt(s, j)
  {
  }

  lemma EolHere(s: seq<byte>, j: int)
    requires 0 <= j < |s| && IsEolChar(s[j])
    ensures EolAt(s, j) <==> s[j] == LF || Occurs(s, [CR, LF], j)
  {
    if j + 2 <= |s| {
      assert s[j..j + 2] == [s[j], s[j + 1]];
    }
  }

  /** `evbuffer_getchr`. */
  method GetChr(buf: Evbuffer, it: Ptr) returns (c: byte)
    requires buf.Valid() && InChain(buf, it)
    ensures 0 <= it.pos < |buf.Contents()| && c == buf.Contents()[it.pos]
  {
    hide Concat, Start, NoDup, Linked, AllHold, NoneEmpty;
    ghost var k: nat :| PtrIn(buf, it, k);
    buf.ChainAt(k);
    ByteAt(buf.blocks, k, it.posInChain);
    c := it.chain.buffer[it.chain.misalign + it.posInChain];
  }

  /** `evbuffer_search_eol`, EVBUFFER_EOL_CRLF. */
  method SearchEolCrLf(buf: Evbuffer, start: Ptr) returns (it: Ptr, eolLen: nat)
    requires buf.Valid() && PtrOk(buf, start) && buf.totalLen <= EV_SIZE_MAX
    ensures FirstEol(buf.Contents(), start.pos, it.pos, eolLen)
    ensures it.pos >= 0 ==> InChain(buf, it)
  {
    hide Concat, Start, Chain.Holds, NoDup, Linked, AllHold, NoneEmpty, Occurs, NoEolIn, NoLineEnds, PtrAt, EolAt;
    it := start;
    ghost var s := buf.Contents();
    PtrBounds(buf, it);
    NoLineYet(s, start.pos);
    while true
      invariant start.pos <= it.pos <= |s| && PtrOk(buf, it) && NoLineEnds(s, start.pos, it.pos)
      decreases |s| - it.pos
    {
      var found, next := FindEol(buf, it);
      if !found {
        NoLineEndsNext(s, start.pos, it.pos, |s|);
        return Ptr(-1, null, 0), 0;
      }
      NoLineEndsNext(s, start.pos, it.pos, next.pos);
      EolHere(s, next.pos);
      it := next;
      InChainOk(buf, it);
      var c := GetChr(buf, it);
      if c == LF {
        LineEnds(s, start.pos, it.pos, 1);
        return it, 1;
      }
      var r := PtrMemcmp(buf, it, [CR, LF]);
      if r == 0 {
        LineEnds(s, start.pos, it.pos, 2);
        return it, 2;
      }
      r, next := PtrSet(buf, it, 1, Plus);
      if r < 0 {
        NoLineEndsNext(s, start.pos, it.pos + 1, |s|);
        return Ptr(-1, null, 0), 0;
      }
      it := next;
      InChainOk(buf, it);
    }
  }

  lemma PtrBounds(buf: Evbuffer, it: Ptr)
    requires buf.Valid() && PtrOk(buf, it)
    ensures 0 <= it.pos <= |buf.Contents()|
  {
    hide Concat, Start;
    var k: nat :| PtrAt(buf, it, k);
    if k < |buf.spine| { buf.ChainAt(k); } else { ConcatEnds(buf.blocks); }
  }

  lemma InChainOk(buf: Evbuffer, it: Ptr)
    requires InChain(buf, it)
    ensures PtrOk(buf, it)
  {
  }

  lemma NoLineYet(s: seq<byte>, p: int)
    ensures NoLineEnds(s, p, p)
  {
  }

  lemma LineEnds(s: seq<byte>, p: int, r: int, n: nat)
    requires 0 <= p <= r && EolAt(s, r) && NoLineEnds(s, p, r) && n == if s[r] == LF then 1 else 2
    ensures FirstEol(s, p, r, n)
  {
  }
}
