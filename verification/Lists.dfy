/** Lists without repetition, as the queues of libevent are. */
module Lists {
  predicate NoDup<T(==)>(s: seq<T>) {
    forall i, j :: 0 <= i < j < |s| ==> s[i] != s[j]
  }

  /** TAILQ_REMOVE. */
  function Remove(s: seq<nat>, e: nat): seq<nat> {
    if s == [] then [] else if s[0] == e then s[1..] else [s[0]] + Remove(s[1..], e)
  }

  lemma {:induction false} RemoveProps(s: seq<nat>, e: nat)
    requires NoDup(s) && e in s
    ensures NoDup(Remove(s, e)) && |Remove(s, e)| == |s| - 1
    ensures forall x :: x in Remove(s, e) <==> x in s && x != e
  {
    assert s == [s[0]] + s[1..];
    if s[0] != e {
      RemoveProps(s[1..], e);
      var r := Remove(s[1..], e);
      forall j | 0 <= j < |r| ensures s[0] != r[j] {
        assert r[j] in s[1..];
      }
    }
  }

  /** `x` is ahead of `y` in a list. */
  predicate Ahead<T(==)>(s: seq<T>, x: T, y: T) {
    exists i, j :: 0 <= i < j < |s| && s[i] == x && s[j] == y
  }

  lemma AheadBehind<T>(a: seq<T>, s: seq<T>, b: seq<T>, x: T, y: T)
    requires Ahead(s, x, y)
    ensures Ahead(a + s + b, x, y)
  {
    var i, j :| 0 <= i < j < |s| && s[i] == x && s[j] == y;
    assert (a + s + b)[|a| + i] == x && (a + s + b)[|a| + j] == y;
  }

  /** Elements may have left the list; the others are in the order they were in. */
  ghost predicate Thinned(s: seq<nat>, t: seq<nat>) {
    (s == [] ==> t == []) && forall x, y :: Ahead(t, x, y) ==> Ahead(s, x, y)
  }

  lemma {:induction false} RemoveThins(s: seq<nat>, e: nat)
    ensures Thinned(s, Remove(s, e))
    ensures forall x :: x in s && x != e ==> x in Remove(s, e)
    ensures forall x :: x in Remove(s, e) ==> x in s
  {
    if s != [] {
      RemoveThins(s[1..], e);
      var t := Remove(s, e);
      assert s == [s[0]] + s[1..];
      forall x, y | Ahead(t, x, y) ensures Ahead(s, x, y) {
        var i, j :| 0 <= i < j < |t| && t[i] == x && t[j] == y;
        if s[0] == e {
          assert s[i + 1] == x && s[j + 1] == y;
        } else if i == 0 {
          assert y in s[1..];
          var k :| 0 <= k < |s[1..]| && s[1..][k] == y;
          assert s[0] == x && s[k + 1] == y;
        } else {
          assert t[1..][i - 1] == x && t[1..][j - 1] == y;
          assert t[1..] == Remove(s[1..], e);
          AheadBehind([s[0]], s[1..], [], x, y);
          assert [s[0]] + s[1..] + [] == s;
        }
      }
    }
  }

  function SumLen(qs: seq<seq<nat>>): nat {
    if qs == [] then 0 else |qs[0]| + SumLen(qs[1..])
  }

  lemma {:induction false} SumLenUpdate(qs: seq<seq<nat>>, p: nat, s: seq<nat>)
    requires p < |qs|
    ensures SumLen(qs[p := s]) == SumLen(qs) - |qs[p]| + |s|
  {
    if p == 0 {
      assert qs[p := s][1..] == qs[1..];
    } else {
      assert qs[p := s][1..] == qs[1..][p - 1 := s];
      SumLenUpdate(qs[1..], p - 1, s);
    }
  }

  lemma {:induction false} SumLenZero(qs: seq<seq<nat>>)
    ensures SumLen(qs) == 0 <==> forall p :: 0 <= p < |qs| ==> qs[p] == []
  {
    if qs != [] {
      SumLenZero(qs[1..]);
      assert qs == [qs[0]] + qs[1..];
    }
  }
}
