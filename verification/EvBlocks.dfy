/** A byte sequence cut into blocks: what the chains of an evbuffer hold. */
module EvBlocks {
  import opened Common

  type Blocks = seq<seq<byte>>

  function Concat(bs: Blocks): seq<byte> {
    if bs == [] then [] else bs[0] + Concat(bs[1..])
  }

  lemma {:induction false} ConcatAppend(a: Blocks, b: Blocks)
    ensures Concat(a + b) == Concat(a) + Concat(b)
  {
    if a == [] {
      assert a + b == b;
    } else {
      assert (a + b)[1..] == a[1..] + b;
      ConcatAppend(a[1..], b);
    }
  }

  lemma ConcatOne(s: seq<byte>)
    ensures Concat([s]) == s
  {
    assert [s][1..] == [];
  }

  /** Where block `k` starts. */
  function Start(bs: Blocks, k: nat): nat
    requires k <= |bs|
  {
    |Concat(bs[..k])|
  }

  lemma ConcatSplit(bs: Blocks, k: nat)
    requires k < |bs|
    ensures Concat(bs) == Concat(bs[..k]) + bs[k] + Concat(bs[k + 1..])
    ensures Concat(bs[k..]) == bs[k] + Concat(bs[k + 1..])
    ensures Concat(bs[..k + 1]) == Concat(bs[..k]) + bs[k]
    ensures Start(bs, k + 1) == Start(bs, k) + |bs[k]|
  {
    hide Concat;
    assert bs == bs[..k] + [bs[k]] + bs[k + 1..];
    assert bs[..k + 1] == bs[..k] + [bs[k]];
    assert bs[k..] == [bs[k]] + bs[k + 1..];
    ConcatAppend(bs[..k] + [bs[k]], bs[k + 1..]);
    ConcatAppend(bs[..k], [bs[k]]);
    ConcatAppend([bs[k]], bs[k + 1..]);
    ConcatOne(bs[k]);
  }

  lemma ConcatCut(bs: Blocks, k: nat)
    requires k <= |bs|
    ensures Concat(bs) == Concat(bs[..k]) + Concat(bs[k..])
    ensures Start(bs, k) <= |Concat(bs)| && Concat(bs[k..]) == Concat(bs)[Start(bs, k)..]
  {
    ConcatAppend(bs[..k], bs[k..]);
    assert bs == bs[..k] + bs[k..];
  }

  lemma ConcatEnds(bs: Blocks)
    ensures Start(bs, 0) == 0 && Start(bs, |bs|) == |Concat(bs)|
    ensures Concat(bs[|bs|..]) == []
  {
    assert bs[..|bs|] == bs;
  }

  /** Inside one block. */
  lemma InBlock(bs: Blocks, k: nat, i: nat, j: nat)
    requires k < |bs| && i <= j <= |bs[k]|
    ensures Start(bs, k) + j <= |Concat(bs)|
    ensures Concat(bs)[Start(bs, k) + i..Start(bs, k) + j] == bs[k][i..j]
  {
    ConcatSplit(bs, k);
    hide Concat;
  }

  lemma LastBlock(bs: Blocks)
    requires bs != []
    ensures Concat(bs) == Concat(bs[..|bs| - 1]) + bs[|bs| - 1]
  {
    ConcatSplit(bs, |bs| - 1);
    assert bs[|bs| - 1 + 1..] == [];
  }

  lemma GrowLast(bs: Blocks, d: seq<byte>)
    requires bs != []
    ensures Concat(bs[|bs| - 1 := bs[|bs| - 1] + d]) == Concat(bs) + d
  {
    var n := |bs| - 1;
    var bs' := bs[n := bs[n] + d];
    LastBlock(bs);
    LastBlock(bs');
    hide Concat;
    assert bs'[..n] == bs[..n];
  }

  lemma GrowFirst(bs: Blocks, d: seq<byte>)
    requires bs != []
    ensures Concat(bs[0 := d + bs[0]]) == d + Concat(bs)
  {
    assert bs[0 := d + bs[0]][1..] == bs[1..];
  }

  /** What is left when `n` octets go from the front. */
  function Dropped(bs: Blocks, k: nat, n: nat): Blocks
    requires k < |bs| && n <= |bs[k]|
  {
    bs[k..][0 := bs[k][n..]]
  }

  lemma DroppedConcat(bs: Blocks, k: nat, n: nat)
    requires k < |bs| && n <= |bs[k]|
    ensures Start(bs, k) + n <= |Concat(bs)| && Concat(Dropped(bs, k, n)) == Concat(bs)[Start(bs, k) + n..]
  {
    ConcatSplit(bs, k);
    assert Dropped(bs, k, n)[1..] == bs[k + 1..];
  }

  lemma FrontOf(bs: Blocks, k: nat, n: nat)
    requires k < |bs| && n <= |bs[k]|
    ensures Start(bs, k) + n <= |Concat(bs)| && Concat(bs[..k]) + bs[k][..n] == Concat(bs)[..Start(bs, k) + n]
  {
    ConcatSplit(bs, k);
    hide Concat;
  }
}
