/** Any run of operations on two evbuffers, against the same operations on two flat byte sequences. */
module EvBufferRun {
  import opened Common
  import opened Lists
  import opened EvBlocks
  import opened EvBuffer

  /** An operation on one buffer, or between it and the other. */
  datatype Op =
    | OpAdd(data: seq<byte>)
    | OpPrepend(data: seq<byte>)
    | OpDrain(n: nat)
    | OpRemove(n: nat)
    | OpCopyout(n: nat)
    | OpPullup(size: int)
    | OpAddBuffer
    | OpPrependBuffer
    | OpRemoveBuffer(n: nat)

  /** What an operation on the flat sequence `x`, beside `y`, makes of both. */
  function Flat(x: seq<byte>, y: seq<byte>, op: Op): (seq<byte>, seq<byte>) {
    match op
    case OpAdd(data) => (if |data| > EV_SIZE_MAX - |x| then x else x + data, y)
    case OpPrepend(data) => (if |data| > EV_SIZE_MAX - |x| then x else data + x, y)
    case OpDrain(n) => (x[Min(n, |x|)..], y)
    case OpRemove(n) => (x[Min(n, |x|)..], y)
    case OpCopyout(_) => (x, y)
    case OpPullup(_) => (x, y)
    case OpAddBuffer => (x + y, [])
    case OpPrependBuffer => (y + x, [])
    case OpRemoveBuffer(n) =>
      if |x| + |y| > EV_SIZE_MAX then (x, y) else (x[Min(n, |x|)..], y + x[..Min(n, |x|)])
  }

  /** The octets that an operation hands to its caller. */
  function Handed(x: seq<byte>, op: Op): seq<byte> {
    match op
    case OpRemove(n) => x[..Min(n, |x|)]
    case OpCopyout(n) => x[..Min(n, |x|)]
    case _ => []
  }

  /** Two buffers that nobody has frozen and that share no chain. */
  ghost predicate Sound(x: Evbuffer, y: Evbuffer)
    reads x, y, x.spine, y.spine
  {
    && x != y && x.Valid() && y.Valid() && Disjoint(x.spine, y.spine) && Disjoint(y.spine, x.spine)
    && !x.freezeStart && !x.freezeEnd && !y.freezeStart && !y.freezeEnd
  }

  lemma SoundSwapped(x: Evbuffer, y: Evbuffer)
    requires Sound(x, y)
    ensures Sound(y, x)
  {
  }

  method Perform(x: Evbuffer, y: Evbuffer, op: Op) returns (data: seq<byte>)
    requires Sound(x, y)
    modifies x, y, x.spine, y.spine
    ensures Sound(x, y) && data == Handed(old(x.Contents()), op)
    ensures (x.Contents(), y.Contents()) == Flat(old(x.Contents()), old(y.Contents()), op)
    ensures forall k :: 0 <= k < |x.spine| ==>
              x.spine[k] in old(x.spine) || x.spine[k] in old(y.spine) || fresh(x.spine[k])
    ensures forall k :: 0 <= k < |y.spine| ==>
              y.spine[k] in old(x.spine) || y.spine[k] in old(y.spine) || fresh(y.spine[k])
  {
    hide Sound, Flat, Concat;
    data := [];
    match op {
      case OpAddBuffer => MoveAll(x, y, op);
      case OpPrependBuffer => MoveAll(x, y, op);
      case OpRemoveBuffer(n) => MoveSome(x, y, op);
      case _ => data := PerformOne(x, y, op);
    }
  }

  /** Everything goes from the other buffer to this one. */
  method MoveAll(x: Evbuffer, y: Evbuffer, op: Op)
    requires Sound(x, y) && (op.OpAddBuffer? || op.OpPrependBuffer?)
    modifies x, y, x.spine, y.spine
    ensures Sound(x, y)
    ensures (x.Contents(), y.Contents()) == Flat(old(x.Contents()), old(y.Contents()), op)
    ensures forall k :: 0 <= k < |x.spine| ==>
              x.spine[k] in old(x.spine) || x.spine[k] in old(y.spine) || fresh(x.spine[k])
    ensures forall k :: 0 <= k < |y.spine| ==>
              y.spine[k] in old(x.spine) || y.spine[k] in old(y.spine) || fresh(y.spine[k])
  {
    hide Concat, Chain.Holds, NoDup, Linked, AllHold, NoneEmpty, SlotAt;
    NothingToMove(x.Contents(), y.Contents());
    if op.OpAddBuffer? {
      var r := x.AddBuffer(y);
    } else {
      var r := x.PrependBuffer(y);
    }
  }

  /** Some octets go from this buffer to the other. */
  method MoveSome(x: Evbuffer, y: Evbuffer, op: Op)
    requires Sound(x, y) && op.OpRemoveBuffer?
    modifies x, y, x.spine, y.spine
    ensures Sound(x, y)
    ensures (x.Contents(), y.Contents()) == Flat(old(x.Contents()), old(y.Contents()), op)
    ensures forall k :: 0 <= k < |x.spine| ==>
              x.spine[k] in old(x.spine) || x.spine[k] in old(y.spine) || fresh(x.spine[k])
    ensures forall k :: 0 <= k < |y.spine| ==>
              y.spine[k] in old(x.spine) || y.spine[k] in old(y.spine) || fresh(y.spine[k])
  {
    hide Concat, Chain.Holds, NoDup, Linked, AllHold, NoneEmpty, SlotAt;
    NothingToMove(y.Contents(), x.Contents()[..0]);
    if x.totalLen + y.totalLen <= EV_SIZE_MAX { var r := x.RemoveBuffer(y, op.n); }
  }

  lemma NothingToMove(x: seq<byte>, y: seq<byte>)
    ensures y == [] ==> x + y == x && y + x == x
  {
  }

  /** An operation that leaves the other buffer alone. */
  method PerformOne(x: Evbuffer, y: Evbuffer, op: Op) returns (data: seq<byte>)
    requires Sound(x, y) && !op.OpAddBuffer? && !op.OpPrependBuffer? && !op.OpRemoveBuffer?
    modifies x, x.spine
    ensures Sound(x, y) && y.spine == old(y.spine) && data == Handed(old(x.Contents()), op)
    ensures (x.Contents(), y.Contents()) == Flat(old(x.Contents()), old(y.Contents()), op)
    ensures forall k :: 0 <= k < |x.spine| ==> x.spine[k] in old(x.spine) || fresh(x.spine[k])
  {
    hide Concat, Chain.Holds, NoDup, Linked, AllHold, NoneEmpty, SlotAt;
    ghost var was := x.Contents();
    assert was[0..] == was && was[|was|..] == [];
    Apart(x.spine, y.spine);
    data := [];
    match op {
      case OpAdd(d) => var r := x.Add(d);
      case OpPrepend(d) => var r := x.Prepend(d);
      case OpDrain(n) => var r := x.Drain(n);
      case OpRemove(n) =>
        var r, d := x.RemoveBytes(n);
        assert (d + x.Contents())[|d|..] == x.Contents() && (d + x.Contents())[..|d|] == d;
        data := d;
      case OpCopyout(n) =>
        var r, d := x.Copyout(n);
        data := d;
      case OpPullup(size) => var ok := x.Pullup(size);
    }
  }

  lemma Apart(a: seq<Chain>, b: seq<Chain>)
    requires Disjoint(a, b)
    ensures forall k :: 0 <= k < |b| ==> b[k] !in a
  {
  }

  /** An operation, and which of the two buffers it is for. */
  datatype Call = Call(second: bool, op: Op)

  /** Two flat sequences, and what each call handed out. */
  function FlatRun(calls: seq<Call>): (seq<byte>, seq<byte>, seq<seq<byte>>) {
    if calls == [] then ([], [], [])
    else
      var n := |calls| - 1;
      var (a, b, out) := FlatRun(calls[..n]);
      var op := calls[n].op;
      if calls[n].second then
        var (b', a') := Flat(b, a, op);
        (a', b', out + [Handed(b, op)])
      else
        var (a', b') := Flat(a, b, op);
        (a', b', out + [Handed(a, op)])
  }

  /** Whatever is done to two new buffers, in whatever order, they hold and hand out what two byte sequences would, and
      their chains stay sound and apart. */
  method Run(calls: seq<Call>) returns (a: Evbuffer, b: Evbuffer, out: seq<seq<byte>>)
    ensures Sound(a, b) && (a.Contents(), b.Contents(), out) == FlatRun(calls)
  {
    hide Flat, Handed, Concat, Evbuffer.Valid, Disjoint;
    a, b := NewPair();
    out := [];
    assert calls[..0] == [];
    for k := 0 to |calls|
      invariant fresh(a) && fresh(b) && fresh(a.spine) && fresh(b.spine)
      invariant Sound(a, b) && (a.Contents(), b.Contents(), out) == FlatRun(calls[..k])
    {
      hide Sound;
      assert calls[..k + 1][..k] == calls[..k];
      var data;
      if calls[k].second {
        SoundSwapped(a, b);
        data := Perform(b, a, calls[k].op);
        SoundSwapped(b, a);
      } else {
        data := Perform(a, b, calls[k].op);
      }
      out := out + [data];
    }
    assert calls[..|calls|] == calls;
  }

  method NewPair() returns (a: Evbuffer, b: Evbuffer)
    ensures fresh(a) && fresh(b) && a.spine == [] && b.spine == []
    ensures Sound(a, b) && a.Contents() == [] && b.Contents() == []
  {
    a := new Evbuffer();
    b := new Evbuffer();
  }
}
