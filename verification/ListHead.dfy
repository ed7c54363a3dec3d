/**
 The circular doubly linked list of inc/list.h.  A ring is a sequence of nodes of which the first is the head; what
 the list holds is the rest.
 */
module ListHead {
  import opened Lists

  /** `struct list_head`, set up by INIT_LIST_HEAD. */
  class Node {
    var next: Node
    var prev: Node

    constructor ()
      ensures next == this && prev == this && Ring([this])
    {
      next, prev := this, this;
      new;
      assert LinkedAt([this], 0);
    }
  }

  /** The place after `i`, round the ring. */
  function Succ(i: nat, n: nat): nat {
    if i + 1 < n then i + 1 else 0
  }

  /** `next` and `prev` are inverse here. */
  ghost predicate LinkedAt(r: seq<Node>, i: nat)
    requires i < |r|
    reads r
  {
    r[i].next == r[Succ(i, |r|)] && r[Succ(i, |r|)].prev == r[i]
  }

  ghost predicate Ring(r: seq<Node>)
    reads r
  {
    r != [] && NoDup(r) && forall i :: 0 <= i < |r| ==> LinkedAt(r, i)
  }

  /** `__list_add`, between a node and the one after it. */
  method ListAdd(new_: Node, prev: Node, next: Node, ghost r: seq<Node>, ghost k: nat)
    requires Ring(r) && new_ !in r && k < |r| && prev == r[k] && next == r[Succ(k, |r|)]
    modifies new_, prev, next
    ensures Ring(r[..k + 1] + [new_] + r[k + 1..])
  {
    next.prev := new_;
    new_.next := next;
    new_.prev := prev;
    prev.next := new_;
    ghost var r' := r[..k + 1] + [new_] + r[k + 1..];
    forall i | 0 <= i < |r'| ensures LinkedAt(r', i) {
      if i < k {
        assert old(LinkedAt(r, i));
      } else if i > k + 1 {
        assert old(LinkedAt(r, i - 1));
      }
    }
  }

  /** `clist_add`: to the front. */
  method ClistAdd(new_: Node, head: Node, ghost r: seq<Node>)
    requires Ring(r) && head == r[0] && new_ !in r
    modifies new_, head, head.next
    ensures Ring([head, new_] + r[1..])
  {
    assert LinkedAt(r, 0);
    ListAdd(new_, head, head.next, r, 0);
    assert r[..1] + [new_] + r[1..] == [head, new_] + r[1..];
  }

  /** `list_add_tail`: to the back. */
  method ListAddTail(new_: Node, head: Node, ghost r: seq<Node>)
    requires Ring(r) && head == r[0] && new_ !in r
    modifies new_, head, head.prev
    ensures Ring(r + [new_])
  {
    ghost var k := |r| - 1;
    assert LinkedAt(r, k);
    ListAdd(new_, head.prev, head, r, k);
    assert r[..k + 1] + [new_] + r[k + 1..] == r + [new_];
  }

  /** `list_del`, of any node but the head. */
  method ListDel(entry: Node, ghost r: seq<Node>, ghost k: nat)
    requires Ring(r) && 0 < k < |r| && entry == r[k]
    modifies entry.prev, entry.next
    ensures Ring(r[..k] + r[k + 1..])
  {
    assert LinkedAt(r, k - 1) && LinkedAt(r, k);
    entry.prev.next := entry.next;
    entry.next.prev := entry.prev;
    ghost var r' := r[..k] + r[k + 1..];
    forall i | 0 <= i < |r'| ensures LinkedAt(r', i) {
      if i < k - 1 {
        assert old(LinkedAt(r, i));
      } else if i >= k {
        assert old(LinkedAt(r, i + 1));
      }
    }
  }

  /** `list_empty`. */
  method ListEmpty(head: Node, ghost r: seq<Node>) returns (empty: bool)
    requires Ring(r) && head == r[0]
    ensures empty <==> r == [head]
  {
    assert LinkedAt(r, 0);
    empty := head.next == head;
  }

  /** `__list_splice`, of a list that holds something. */
  method Splice(list: Node, head: Node, ghost a: seq<Node>, ghost r: seq<Node>)
    requires Ring(a) && Ring(r) && list == a[0] && head == r[0] && |a| > 1 && forall x :: x in a ==> x !in r
    modifies head, head.next, list.next, list.prev
    ensures Ring([head] + a[1..] + r[1..])
  {
    var first, last, at := list.next, list.prev, head.next;
    assert LinkedAt(a, 0) && LinkedAt(a, |a| - 1) && LinkedAt(r, 0);
    assert first == a[1] && last == a[|a| - 1] && at == r[Succ(0, |r|)];
    assert first in a && last in a && at in r && head in r;
    first.prev := head;
    head.next := first;
    last.next := at;
    at.prev := last;
    SpliceDistinct(a, r);
    ghost var s := [head] + a[1..] + r[1..];
    forall i | 0 <= i < |s| ensures LinkedAt(s, i) {
      if 0 < i < |a| - 1 {
        assert old(LinkedAt(a, i)) && a[i] in a && a[i + 1] in a;
      } else if i >= |a| {
        assert old(LinkedAt(r, i - |a| + 1)) && r[i - |a| + 1] in r;
      }
    }
  }

  /** `list_splice`: what `list` holds goes to the front of what `head` holds; the head `list` is out of use then. */
  method ListSplice(list: Node, head: Node, ghost a: seq<Node>, ghost r: seq<Node>)
    requires Ring(a) && Ring(r) && list == a[0] && head == r[0] && forall x :: x in a ==> x !in r
    modifies head, head.next, list.next, list.prev
    ensures Ring([head] + a[1..] + r[1..])
    ensures |a| == 1 ==> Ring(a)
  {
    hide NoDup, LinkedAt;
    var empty := ListEmpty(list, a);
    if empty {
      assert [head] + a[1..] + r[1..] == r;
    } else {
      Splice(list, head, a, r);
    }
  }

  lemma SpliceDistinct(a: seq<Node>, r: seq<Node>)
    requires a != [] && r != [] && NoDup(a) && NoDup(r) && forall x :: x in a ==> x !in r
    ensures NoDup([r[0]] + a[1..] + r[1..])
  {
    var s := [r[0]] + a[1..] + r[1..];
    forall i, j | 0 <= i < j < |s| ensures s[i] != s[j] {
      assert s[i] == if i == 0 then r[0] else if i < |a| then a[i] else r[i - |a| + 1];
      assert s[j] == if j < |a| then a[j] else r[j - |a| + 1];
      assert 0 < i < |a| ==> s[i] in a;
      assert 0 < j < |a| ==> s[j] in a;
      assert r[0] in r && (j >= |a| ==> s[j] in r);
    }
  }

  /** What `list_prepend` makes of a ring: the new node goes behind the first of the list, and that ends it there. */
  function Prepended(r: seq<Node>, new_: Node): seq<Node>
    requires r != []
  {
    if |r| == 1 then r + [new_] else [r[0], r[1], new_]
  }

  /** `list_prepend` always leaves a ring, but one that has lost every node after the first. */
  method ListPrepend(new_: Node, head: Node, ghost r: seq<Node>)
    requires Ring(r) && head == r[0] && new_ !in r
    modifies new_, head, head.next
    ensures Ring(Prepended(r, new_))
  {
    assert LinkedAt(r, 0) && (|r| > 1 ==> LinkedAt(r, 1));
    var prev, next := head.next, head;
    next.prev := new_;
    new_.next := next;
    new_.prev := prev;
    prev.next := new_;
    ghost var s := Prepended(r, new_);
    assert |r| > 1 ==> r[1] in r && r[0] in r;
    forall i | 0 <= i < |s| ensures LinkedAt(s, i) {
    }
  }

  /** The list holds its old nodes and the new one if and only if it held at most one before; then the new one is at
      the back. */
  lemma PrependKeeps(r: seq<Node>, new_: Node)
    requires r != [] && NoDup(r) && new_ !in r
    ensures (forall x :: x in r ==> x in Prepended(r, new_)) <==> |r| <= 2
    ensures Prepended(r, new_) == r + [new_] <==> |r| <= 2
    ensures new_ in Prepended(r, new_)
  {
    if |r| > 2 {
      assert r[2] in r && r[2] !in Prepended(r, new_);
    }
  }

  /** A list of two nodes loses the second to `list_prepend`. */
  method PrependLoses(head: Node, x: Node, y: Node, z: Node)
    requires Ring([head, x, y]) && z !in [head, x, y]
    modifies z, head, head.next
    ensures Ring([head, x, z]) && y !in [head, x, z]
  {
    ListPrepend(z, head, [head, x, y]);
    assert NoDup([head, x, y]) && [head, x, y][2] == y;
  }
}
