/**
 The queues of an event base (libevent/event.c): the inserted list, the active queues by priority, the
 timeout heap and the common-timeout lists, with the flags and counters that mirror them.
 */
module EventQueues {
  import opened Common
  import opened Lists

  type Id = nat
  /** Microseconds. */
  type Time = int

  /** `struct event`.  `common` is the index that a common timeout hides in `ev_timeout.tv_usec`. */
  datatype Event = Event(
    internal: bool, pri: nat, io: bool, persist: bool,
    inserted: bool, active: bool, timeout: bool,
    deadline: Time, common: Option<nat>, byTimeout: bool)

  /** `struct common_timeout_list`. */
  datatype CommonList = CommonList(front: Id, events: seq<Id>)

  /** The part of `struct event_base` that holds events.  The heap is a set of which only the minimum is
      looked at. */
  datatype Queues = Queues(
    ev: map<Id, Event>, eventqueue: seq<Id>, activequeues: seq<seq<Id>>,
    timeheap: set<Id>, commons: seq<CommonList>,
    count: int, countActive: int)

  predicate Sorted(ev: map<Id, Event>, s: seq<Id>) {
    && (forall i :: 0 <= i < |s| ==> s[i] in ev)
    && forall i, j :: 0 <= i < j < |s| ==> ev[s[i]].deadline <= ev[s[j]].deadline
  }

  lemma {:induction false} RemoveSorted(ev: map<Id, Event>, s: seq<Id>, e: Id)
    requires Sorted(ev, s) && NoDup(s) && e in s
    ensures Sorted(ev, Remove(s, e))
    ensures Remove(s, e) != [] ==> ev[s[0]].deadline <= ev[Remove(s, e)[0]].deadline
  {
    if s[0] != e {
      RemoveSorted(ev, s[1..], e);
      RemoveProps(s[1..], e);
      var r := Remove(s[1..], e);
      forall j | 0 <= j < |r| ensures ev[s[0]].deadline <= ev[r[j]].deadline {
        assert r[j] in r;
        var k :| 1 <= k < |s| && s[k] == r[j];
      }
    }
  }

  // ------------------------------------------------------------ flags mirror queues

  ghost predicate InsertedOk(ev: map<Id, Event>, s: seq<Id>) {
    NoDup(s) && forall e :: e in s <==> e in ev && ev[e].inserted
  }

  ghost predicate ActiveOk(ev: map<Id, Event>, qs: seq<seq<Id>>) {
    && (forall e :: e in ev ==> ev[e].pri < |qs|)
    && forall p :: 0 <= p < |qs| ==>
         NoDup(qs[p]) && forall e :: e in qs[p] <==> e in ev && ev[e].active && ev[e].pri == p
  }

  ghost predicate HeapOk(ev: map<Id, Event>, heap: set<Id>) {
    forall e :: e in heap <==> e in ev && ev[e].timeout && ev[e].common.None?
  }

  ghost predicate CommonOk(ev: map<Id, Event>, cs: seq<CommonList>) {
    && (forall e :: e in ev && ev[e].timeout && ev[e].common.Some? ==> ev[e].common.value < |cs|)
    && forall i :: 0 <= i < |cs| ==>
         && NoDup(cs[i].events) && Sorted(ev, cs[i].events)
         && forall e :: e in cs[i].events <==> e in ev && ev[e].timeout && ev[e].common == Some(i)
  }

  /** The events that the counter counts, by queue. */
  ghost function UserInserted(ev: map<Id, Event>): set<Id> {
    set e | e in ev && !ev[e].internal && ev[e].inserted
  }

  ghost function UserActive(ev: map<Id, Event>): set<Id> {
    set e | e in ev && !ev[e].internal && ev[e].active
  }

  ghost function UserTimeout(ev: map<Id, Event>): set<Id> {
    set e | e in ev && !ev[e].internal && ev[e].timeout
  }

  ghost function UserMemberships(ev: map<Id, Event>): nat {
    |UserInserted(ev)| + |UserActive(ev)| + |UserTimeout(ev)|
  }

  /** Every queue flag matches membership in that queue; the counters count what is queued. */
  ghost predicate QueuesOk(q: Queues) {
    && InsertedOk(q.ev, q.eventqueue) && ActiveOk(q.ev, q.activequeues)
    && HeapOk(q.ev, q.timeheap) && CommonOk(q.ev, q.commons)
    && q.count == UserMemberships(q.ev) && q.countActive == SumLen(q.activequeues)
  }

  // ------------------------------------------------------------ event_queue_insert, event_queue_remove

  function Counted(e: Event): int {
    if e.internal then 0 else 1
  }

  function InsertInserted(q: Queues, e: Id): Queues
    requires e in q.ev
  {
    q.(ev := q.ev[e := q.ev[e].(inserted := true)], eventqueue := q.eventqueue + [e],
      count := q.count + Counted(q.ev[e]))
  }

  function RemoveInserted(q: Queues, e: Id): Queues
    requires e in q.ev
  {
    q.(ev := q.ev[e := q.ev[e].(inserted := false)], eventqueue := Remove(q.eventqueue, e),
      count := q.count - Counted(q.ev[e]))
  }

  function InsertActive(q: Queues, e: Id): Queues
    requires e in q.ev && q.ev[e].pri < |q.activequeues|
  {
    var p := q.ev[e].pri;
    q.(ev := q.ev[e := q.ev[e].(active := true)], activequeues := q.activequeues[p := q.activequeues[p] + [e]],
       count := q.count + Counted(q.ev[e]), countActive := q.countActive + 1)
  }

  function RemoveActive(q: Queues, e: Id): Queues
    requires e in q.ev && q.ev[e].pri < |q.activequeues|
  {
    var p := q.ev[e].pri;
    q.(ev := q.ev[e := q.ev[e].(active := false)], activequeues := q.activequeues[p := Remove(q.activequeues[p], e)],
       count := q.count - Counted(q.ev[e]), countActive := q.countActive - 1)
  }

  // What an update of one event leaves alone.

  lemma InsertedFrame(ev: map<Id, Event>, s: seq<Id>, e: Id, r: Event)
    requires InsertedOk(ev, s) && e in ev && r.inserted == ev[e].inserted
    ensures InsertedOk(ev[e := r], s)
  {
  }

  lemma ActiveFrame(ev: map<Id, Event>, qs: seq<seq<Id>>, e: Id, r: Event)
    requires ActiveOk(ev, qs) && e in ev && r.active == ev[e].active && r.pri == ev[e].pri
    ensures ActiveOk(ev[e := r], qs)
  {
  }

  lemma HeapFrame(ev: map<Id, Event>, heap: set<Id>, e: Id, r: Event)
    requires HeapOk(ev, heap) && e in ev && r.timeout == ev[e].timeout && r.common == ev[e].common
    ensures HeapOk(ev[e := r], heap)
  {
  }

  lemma CommonFrame(ev: map<Id, Event>, cs: seq<CommonList>, e: Id, r: Event)
    requires CommonOk(ev, cs) && e in ev
    requires r.timeout == ev[e].timeout && r.common == ev[e].common && r.deadline == ev[e].deadline
    ensures CommonOk(ev[e := r], cs)
  {
  }

  function Delta(was: bool, now: bool): int {
    (if now then 1 else 0) - (if was then 1 else 0)
  }

  lemma InsertedCard(ev: map<Id, Event>, e: Id, r: Event)
    requires e in ev && r.internal == ev[e].internal
    ensures |UserInserted(ev[e := r])| == |UserInserted(ev)| +
              (if r.internal then 0 else Delta(ev[e].inserted, r.inserted))
  {
    var s := UserInserted(ev);
    assert UserInserted(ev[e := r]) == if !r.internal && r.inserted then s + {e} else s - {e};
  }

  lemma ActiveCard(ev: map<Id, Event>, e: Id, r: Event)
    requires e in ev && r.internal == ev[e].internal
    ensures |UserActive(ev[e := r])| == |UserActive(ev)| + (if r.internal then 0 else Delta(ev[e].active, r.active))
  {
    var s := UserActive(ev);
    assert UserActive(ev[e := r]) == if !r.internal && r.active then s + {e} else s - {e};
  }

  lemma TimeoutCard(ev: map<Id, Event>, e: Id, r: Event)
    requires e in ev && r.internal == ev[e].internal
    ensures |UserTimeout(ev[e := r])| == |UserTimeout(ev)| + (if r.internal then 0 else Delta(ev[e].timeout, r.timeout))
  {
    var s := UserTimeout(ev);
    assert UserTimeout(ev[e := r]) == if !r.internal && r.timeout then s + {e} else s - {e};
  }

  /** One event's contribution to the counter. */
  lemma MembershipsUpdate(ev: map<Id, Event>, e: Id, r: Event)
    requires e in ev && r.internal == ev[e].internal
    ensures UserMemberships(ev[e := r]) == UserMemberships(ev)
         + (if r.internal then 0
            else Delta(ev[e].inserted, r.inserted) + Delta(ev[e].active, r.active) + Delta(ev[e].timeout, r.timeout))
  {
    hide UserInserted, UserActive, UserTimeout;
    InsertedCard(ev, e, r);
    ActiveCard(ev, e, r);
    TimeoutCard(ev, e, r);
  }

  lemma InsertInsertedOk(q: Queues, e: Id)
    requires QueuesOk(q) && e in q.ev && !q.ev[e].inserted
    ensures QueuesOk(InsertInserted(q, e))
  {
    var r := q.ev[e].(inserted := true);
    ActiveFrame(q.ev, q.activequeues, e, r);
    HeapFrame(q.ev, q.timeheap, e, r);
    CommonFrame(q.ev, q.commons, e, r);
    MembershipsUpdate(q.ev, e, r);
    assert InsertedOk(q.ev[e := r], q.eventqueue + [e]);
    hide InsertedOk, ActiveOk, HeapOk, CommonOk, UserMemberships;
  }

  lemma RemoveInsertedOk(q: Queues, e: Id)
    requires QueuesOk(q) && e in q.ev && q.ev[e].inserted
    ensures QueuesOk(RemoveInserted(q, e))
  {
    var r := q.ev[e].(inserted := false);
    ActiveFrame(q.ev, q.activequeues, e, r);
    HeapFrame(q.ev, q.timeheap, e, r);
    CommonFrame(q.ev, q.commons, e, r);
    MembershipsUpdate(q.ev, e, r);
    RemoveProps(q.eventqueue, e);
    assert InsertedOk(q.ev[e := r], Remove(q.eventqueue, e));
    hide InsertedOk, ActiveOk, HeapOk, CommonOk, UserMemberships;
  }

  lemma InsertActiveOk(q: Queues, e: Id)
    requires QueuesOk(q) && e in q.ev && !q.ev[e].active
    ensures QueuesOk(InsertActive(q, e))
  {
    var r, p := q.ev[e].(active := true), q.ev[e].pri;
    InsertedFrame(q.ev, q.eventqueue, e, r);
    HeapFrame(q.ev, q.timeheap, e, r);
    CommonFrame(q.ev, q.commons, e, r);
    MembershipsUpdate(q.ev, e, r);
    SumLenUpdate(q.activequeues, p, q.activequeues[p] + [e]);
    ActiveSet(q.ev, q.activequeues, e);
    hide InsertedOk, ActiveOk, HeapOk, CommonOk, UserMemberships, SumLen;
  }

  lemma ActiveSet(ev: map<Id, Event>, qs: seq<seq<Id>>, e: Id)
    requires ActiveOk(ev, qs) && e in ev && !ev[e].active
    ensures var p := ev[e].pri; ActiveOk(ev[e := ev[e].(active := true)], qs[p := qs[p] + [e]])
  {
  }

  lemma ActiveCleared(ev: map<Id, Event>, qs: seq<seq<Id>>, e: Id)
    requires ActiveOk(ev, qs) && e in ev && ev[e].active
    ensures var p := ev[e].pri; ActiveOk(ev[e := ev[e].(active := false)], qs[p := Remove(qs[p], e)])
  {
    RemoveProps(qs[ev[e].pri], e);
  }

  lemma RemoveActiveOk(q: Queues, e: Id)
    requires QueuesOk(q) && e in q.ev && q.ev[e].active
    ensures QueuesOk(RemoveActive(q, e))
  {
    var r, p := q.ev[e].(active := false), q.ev[e].pri;
    InsertedFrame(q.ev, q.eventqueue, e, r);
    HeapFrame(q.ev, q.timeheap, e, r);
    CommonFrame(q.ev, q.commons, e, r);
    MembershipsUpdate(q.ev, e, r);
    RemoveProps(q.activequeues[p], e);
    SumLenUpdate(q.activequeues, p, Remove(q.activequeues[p], e));
    ActiveCleared(q.ev, q.activequeues, e);
    hide InsertedOk, ActiveOk, HeapOk, CommonOk, UserMemberships, SumLen;
  }

  // ------------------------------------------------------------ timeouts

  /** Where `insert_common_timeout_inorder` puts a deadline: behind the last that is not later. */
  function Place(ev: map<Id, Event>, s: seq<Id>, deadline: Time): (k: nat)
    requires forall i :: 0 <= i < |s| ==> s[i] in ev
    ensures k <= |s|
    ensures k > 0 ==> ev[s[k - 1]].deadline <= deadline
    ensures forall j :: k <= j < |s| ==> ev[s[j]].deadline > deadline
  {
    if s == [] then 0
    else if ev[s[|s| - 1]].deadline <= deadline then |s|
    else Place(ev, s[..|s| - 1], deadline)
  }

  function InsertAt(s: seq<Id>, k: nat, e: Id): seq<Id>
    requires k <= |s|
  {
    s[..k] + [e] + s[k..]
  }

  /** `insert_common_timeout_inorder`: the search runs from the end. */
  method InsertInOrder(ev: map<Id, Event>, s: seq<Id>, e: Id, deadline: Time) returns (t: seq<Id>)
    requires forall i :: 0 <= i < |s| ==> s[i] in ev
    ensures t == InsertAt(s, Place(ev, s, deadline), e)
  {
    var k := |s|;
    assert s[..|s|] == s;
    while k > 0 && ev[s[k - 1]].deadline > deadline
      invariant 0 <= k <= |s| && Place(ev, s[..k], deadline) == Place(ev, s, deadline)
    {
      assert s[..k][..k - 1] == s[..k - 1];
      k := k - 1;
    }
    t := s[..k] + [e] + s[k..];
  }

  predicate CommonsKnown(q: Queues) {
    forall i, j :: 0 <= i < |q.commons| && 0 <= j < |q.commons[i].events| ==> q.commons[i].events[j] in q.ev
  }

  /** `ev_timeout` is set, then the event goes into the heap or its common list. */
  function InsertTimeout(q: Queues, e: Id, deadline: Time, common: Option<nat>): Queues
    requires e in q.ev && (common.Some? ==> common.value < |q.commons|)
    requires CommonsKnown(q)
  {
    var q' := q.(ev := q.ev[e := q.ev[e].(timeout := true, deadline := deadline, common := common)],
                 count := q.count + Counted(q.ev[e]));
    match common
    case None => q'.(timeheap := q.timeheap + {e})
    case Some(i) =>
      var s := q.commons[i].events;
      q'.(commons := q.commons[i := q.commons[i].(events := InsertAt(s, Place(q.ev, s, deadline), e))])
  }

  function RemoveTimeout(q: Queues, e: Id): Queues
    requires e in q.ev && (q.ev[e].common.Some? ==> q.ev[e].common.value < |q.commons|)
  {
    var q' := q.(ev := q.ev[e := q.ev[e].(timeout := false)], count := q.count - Counted(q.ev[e]));
    match q.ev[e].common
    case None => q'.(timeheap := q.timeheap - {e})
    case Some(i) =>
      q'.(commons := q.commons[i := q.commons[i].(events := Remove(q.commons[i].events, e))])
  }

  lemma InsertAtProps(s: seq<Id>, k: nat, e: Id)
    requires NoDup(s) && e !in s && k <= |s|
    ensures NoDup(InsertAt(s, k, e)) && |InsertAt(s, k, e)| == |s| + 1
    ensures forall x :: x in InsertAt(s, k, e) <==> x in s || x == e
  {
    var t := InsertAt(s, k, e);
    assert forall j :: 0 <= j < |t| ==> t[j] == if j < k then s[j] else if j == k then e else s[j - 1];
    forall x | x in s ensures x in t {
      var j :| 0 <= j < |s| && s[j] == x;
      assert t[if j < k then j else j + 1] == x;
    }
    assert t[k] == e;
  }

  lemma InsertAtSorted(ev: map<Id, Event>, s: seq<Id>, e: Id, r: Event)
    requires Sorted(ev, s) && e !in s
    ensures Sorted(ev[e := r], InsertAt(s, Place(ev, s, r.deadline), e))
  {
    hide Place;
    var k := Place(ev, s, r.deadline);
    var t := InsertAt(s, k, e);
    assert forall j :: 0 <= j < k ==> ev[s[j]].deadline <= r.deadline;
    assert forall j :: 0 <= j < k ==> t[j] == s[j];
    assert t[k] == e;
    assert forall j :: k < j < |t| ==> t[j] == s[j - 1];
    hide InsertAt;
  }

  lemma InsertTimeoutOk(q: Queues, e: Id, deadline: Time, common: Option<nat>)
    requires QueuesOk(q) && e in q.ev && !q.ev[e].timeout && (common.Some? ==> common.value < |q.commons|)
    ensures CommonsKnown(q) && QueuesOk(InsertTimeout(q, e, deadline, common))
  {
    var r := q.ev[e].(timeout := true, deadline := deadline, common := common);
    InsertedFrame(q.ev, q.eventqueue, e, r);
    ActiveFrame(q.ev, q.activequeues, e, r);
    MembershipsUpdate(q.ev, e, r);
    match common {
      case None =>
        assert HeapOk(q.ev[e := r], q.timeheap + {e});
        CommonOther(q.ev, q.commons, e, r);
      case Some(i) =>
        assert HeapOk(q.ev[e := r], q.timeheap);
        CommonInsert(q.ev, q.commons, e, r, i);
    }
    hide InsertedOk, ActiveOk, HeapOk, CommonOk, UserMemberships, SumLen;
  }

  /** An event outside the common lists changes. */
  lemma CommonOther(ev: map<Id, Event>, cs: seq<CommonList>, e: Id, r: Event)
    requires CommonOk(ev, cs) && e in ev
    requires !(ev[e].timeout && ev[e].common.Some?) && !(r.timeout && r.common.Some?)
    ensures CommonOk(ev[e := r], cs)
  {
  }

  lemma CommonInsert(ev: map<Id, Event>, cs: seq<CommonList>, e: Id, r: Event, i: nat)
    requires CommonOk(ev, cs) && e in ev && !ev[e].timeout && r.timeout && r.common == Some(i) && i < |cs|
    ensures CommonOk(ev[e := r],
            cs[i := cs[i].(events := InsertAt(cs[i].events, Place(ev, cs[i].events, r.deadline), e))])
  {
    hide InsertAt, Place;
    var s, k := cs[i].events, Place(ev, cs[i].events, r.deadline);
    InsertAtProps(s, k, e);
    InsertAtSorted(ev, s, e, r);
  }

  lemma CommonRemove(ev: map<Id, Event>, cs: seq<CommonList>, e: Id, i: nat)
    requires CommonOk(ev, cs) && e in ev && ev[e].timeout && ev[e].common == Some(i)
    ensures CommonOk(ev[e := ev[e].(timeout := false)], cs[i := cs[i].(events := Remove(cs[i].events, e))])
  {
    hide Remove;
    RemoveProps(cs[i].events, e);
    RemoveSorted(ev, cs[i].events, e);
    var s, r := Remove(cs[i].events, e), ev[e].(timeout := false);
    assert Sorted(ev[e := r], s);
  }

  lemma RemoveTimeoutOk(q: Queues, e: Id)
    requires QueuesOk(q) && e in q.ev && q.ev[e].timeout
    ensures q.ev[e].common.Some? ==> q.ev[e].common.value < |q.commons|
    ensures QueuesOk(RemoveTimeout(q, e))
  {
    var r := q.ev[e].(timeout := false);
    InsertedFrame(q.ev, q.eventqueue, e, r);
    ActiveFrame(q.ev, q.activequeues, e, r);
    MembershipsUpdate(q.ev, e, r);
    match q.ev[e].common {
      case None =>
        assert HeapOk(q.ev[e := r], q.timeheap - {e});
        CommonOther(q.ev, q.commons, e, r);
      case Some(i) =>
        assert HeapOk(q.ev[e := r], q.timeheap);
        CommonRemove(q.ev, q.commons, e, i);
    }
    hide InsertedOk, ActiveOk, HeapOk, CommonOk, UserMemberships, SumLen;
  }

  // ------------------------------------------------------------ event_del_internal, event_active_nolock

  /** Off every queue it is on. */
  function Del(q: Queues, e: Id): Queues
    requires Deletes(q, e)
  {
    var q1 := if q.ev[e].timeout then RemoveTimeout(q, e) else q;
    var q2 := if q.ev[e].active then RemoveActive(q1, e) else q1;
    if q.ev[e].inserted then RemoveInserted(q2, e) else q2
  }

  /** An event that is active already only collects the reason. */
  function Activate(q: Queues, e: Id, byTimeout: bool): Queues
    requires Deletes(q, e)
  {
    if q.ev[e].active then q.(ev := q.ev[e := q.ev[e].(byTimeout := q.ev[e].byTimeout || byTimeout)])
    else InsertActive(q.(ev := q.ev[e := q.ev[e].(byTimeout := byTimeout)]), e)
  }

  /** An event of a sound base can be deleted and activated. */
  lemma Deletable(q: Queues, e: Id)
    requires QueuesOk(q) && e in q.ev
    ensures Deletes(q, e)
  {
  }

  lemma ReasonOk(q: Queues, e: Id, byTimeout: bool)
    requires QueuesOk(q) && e in q.ev
    ensures QueuesOk(q.(ev := q.ev[e := q.ev[e].(byTimeout := byTimeout)]))
  {
    var r := q.ev[e].(byTimeout := byTimeout);
    InsertedFrame(q.ev, q.eventqueue, e, r);
    ActiveFrame(q.ev, q.activequeues, e, r);
    HeapFrame(q.ev, q.timeheap, e, r);
    CommonFrame(q.ev, q.commons, e, r);
    MembershipsUpdate(q.ev, e, r);
    hide InsertedOk, ActiveOk, HeapOk, CommonOk, UserMemberships, SumLen;
  }

  lemma UpdateTwice(m: map<Id, Event>, e: Id, a: Event, b: Event)
    ensures m[e := a][e := b] == m[e := b]
    ensures e in m && m[e] == b ==> m[e := b] == m
  {
  }

  function Cleared(r: Event): Event {
    r.(timeout := false, active := false, inserted := false)
  }

  lemma DelEv(q: Queues, e: Id)
    requires Deletes(q, e)
    ensures Del(q, e).ev == q.ev[e := Cleared(q.ev[e])]
  {
    hide Remove;
    var r := q.ev[e];
    var r1 := r.(timeout := false);
    var r2 := r1.(active := false);
    UpdateTwice(q.ev, e, r1, r1);
    UpdateTwice(q.ev, e, r1, r2);
    UpdateTwice(q.ev, e, r2, Cleared(r));
  }

  lemma DelHeap(q: Queues, e: Id)
    requires Deletes(q, e) && (e in q.timeheap ==> q.ev[e].timeout && q.ev[e].common.None?)
    ensures Del(q, e).timeheap == q.timeheap - {e}
  {
    hide Remove;
  }

  lemma DelOk(q: Queues, e: Id)
    requires QueuesOk(q) && e in q.ev
    ensures Deletes(q, e) && QueuesOk(Del(q, e))
    ensures Del(q, e).ev == q.ev[e := Cleared(q.ev[e])]
    ensures Del(q, e).timeheap == q.timeheap - {e}
  {
    Deletable(q, e);
    HeapMember(q, e);
    DelEv(q, e);
    DelHeap(q, e);
    hide QueuesOk, Remove, Cleared;
    var q1 := if q.ev[e].timeout then RemoveTimeout(q, e) else q;
    if q.ev[e].timeout { RemoveTimeoutOk(q, e); }
    var q2 := if q.ev[e].active then RemoveActive(q1, e) else q1;
    if q.ev[e].active { RemoveActiveOk(q1, e); }
    if q.ev[e].inserted { RemoveInsertedOk(q2, e); }
  }

  lemma HeapMember(q: Queues, e: Id)
    requires QueuesOk(q) && e in q.ev
    ensures e in q.timeheap <==> q.ev[e].timeout && q.ev[e].common.None?
  {
  }

  predicate Deletes(q: Queues, e: Id) {
    e in q.ev && q.ev[e].pri < |q.activequeues| &&
    (q.ev[e].common.Some? && q.ev[e].timeout ==> q.ev[e].common.value < |q.commons|)
  }

  function Activated(r: Event, byTimeout: bool): Event {
    r.(active := true, byTimeout := (r.active && r.byTimeout) || byTimeout)
  }

  lemma ActivateEv(q: Queues, e: Id, byTimeout: bool)
    requires Deletes(q, e)
    ensures Activate(q, e, byTimeout).ev == q.ev[e := Activated(q.ev[e], byTimeout)]
  {
    UpdateTwice(q.ev, e, q.ev[e].(byTimeout := byTimeout), Activated(q.ev[e], byTimeout));
  }

  lemma ActivateOk(q: Queues, e: Id, byTimeout: bool)
    requires QueuesOk(q) && e in q.ev
    ensures Deletes(q, e) && QueuesOk(Activate(q, e, byTimeout))
    ensures Activate(q, e, byTimeout).ev == q.ev[e := Activated(q.ev[e], byTimeout)]
  {
    Deletable(q, e);
    ActivateEv(q, e, byTimeout);
    ReasonOk(q, e, (q.ev[e].active && q.ev[e].byTimeout) || byTimeout);
    hide QueuesOk, Activated;
    if !q.ev[e].active {
      InsertActiveOk(q.(ev := q.ev[e := q.ev[e].(byTimeout := byTimeout)]), e);
    }
  }
}
