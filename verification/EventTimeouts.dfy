/**
 The two-level timeout scheme of libevent/event.c: a heap, and lists of events with one common timeout, each
 stood for in the heap by one internal event.
 */
module EventTimeouts {
  import opened Common
  import opened Lists
  import opened EventQueues

  /** What is fixed about the event that stands for a common list (`ctl->timeout_event`). */
  predicate FrontEvent(r: Event) {
    r.internal && r.common.None? && !r.io && !r.persist && r.pri == 0
  }

  /** The list is empty, or its front event will look after it: it is active, or in the heap no later than
      the first of the list. */
  predicate FrontDue(ev: map<Id, Event>, c: CommonList) {
    && c.front in ev
    && (c.events == [] ||
        ev[c.front].active ||
        (ev[c.front].timeout && c.events[0] in ev && ev[c.front].deadline <= ev[c.events[0]].deadline))
  }

  /** Every list is looked after, except those in `busy`, whose callback is under way. */
  ghost predicate FrontsOk(ev: map<Id, Event>, cs: seq<CommonList>, busy: set<nat>) {
    && (forall i :: 0 <= i < |cs| ==> cs[i].front in ev && FrontEvent(ev[cs[i].front]))
    && (forall i, j :: 0 <= i < j < |cs| ==> cs[i].front != cs[j].front)
    && (forall i :: 0 <= i < |cs| && i !in busy ==> FrontDue(ev, cs[i]))
  }

  // ------------------------------------------------------------ event_add_internal, the timeout part

  /** An event whose timeout is set anew leaves its old place, and the active queue if an earlier timeout
      had put it there. */
  function Unscheduled(q: Queues, e: Id): Queues
    requires Deletes(q, e)
  {
    var q1 := if q.ev[e].timeout then RemoveTimeout(q, e) else q;
    if q.ev[e].active && q.ev[e].byTimeout then RemoveActive(q1, e) else q1
  }

  lemma UnscheduledOk(q: Queues, e: Id)
    requires QueuesOk(q) && e in q.ev
    ensures Deletes(q, e) && QueuesOk(Unscheduled(q, e))
  {
    Deletable(q, e);
    hide QueuesOk, Remove;
    if q.ev[e].timeout { RemoveTimeoutOk(q, e); }
    var q1 := if q.ev[e].timeout then RemoveTimeout(q, e) else q;
    if q.ev[e].active && q.ev[e].byTimeout { RemoveActiveOk(q1, e); }
  }

  function Stopped(r: Event): Event {
    r.(timeout := false, active := r.active && !r.byTimeout)
  }

  lemma UnscheduledEv(q: Queues, e: Id)
    requires Deletes(q, e)
    ensures Unscheduled(q, e).ev == q.ev[e := Stopped(q.ev[e])]
  {
    hide Remove;
    var r := q.ev[e];
    var r1 := r.(timeout := false);
    UpdateTwice(q.ev, e, r1, r1);
    UpdateTwice(q.ev, e, r1, Stopped(r));
  }

  /** The list without `e`, if `e` waits in it. */
  function Left(ev: map<Id, Event>, cs: seq<CommonList>, e: Id, i: nat): seq<Id>
    requires e in ev && i < |cs|
  {
    if ev[e].timeout && ev[e].common == Some(i) then Remove(cs[i].events, e) else cs[i].events
  }

  lemma UnscheduledCommons(q: Queues, e: Id)
    requires Deletes(q, e)
    ensures var cs := Unscheduled(q, e).commons;
            |cs| == |q.commons| && forall i :: 0 <= i < |cs| ==>
              cs[i] == CommonList(q.commons[i].front, Left(q.ev, q.commons, e, i))
  {
    hide Remove;
  }

  lemma DelCommons(q: Queues, e: Id)
    requires Deletes(q, e)
    ensures var cs := Del(q, e).commons;
            |cs| == |q.commons| && forall i :: 0 <= i < |cs| ==>
              cs[i] == CommonList(q.commons[i].front, Left(q.ev, q.commons, e, i))
  {
    hide Remove;
  }

  lemma UnscheduledHeap(q: Queues, e: Id)
    requires QueuesOk(q) && Deletes(q, e)
    ensures Unscheduled(q, e).timeheap == q.timeheap - {e}
  {
    HeapMember(q, e);
    hide Remove, QueuesOk;
  }

  /** What remains of a sorted list starts no earlier. */
  lemma LeftLater(q: Queues, e: Id, i: nat)
    requires QueuesOk(q) && e in q.ev && i < |q.commons|
    ensures var s, s' := q.commons[i].events, Left(q.ev, q.commons, e, i);
            s' == [] || (s != [] && s[0] in q.ev && s'[0] in q.ev && q.ev[s[0]].deadline <= q.ev[s'[0]].deadline
                         && (s'[0] == e ==> s'[0] == s[0] && !(q.ev[e].timeout && q.ev[e].common == Some(i))))
  {
    var s := q.commons[i].events;
    assert CommonOk(q.ev, q.commons);
    if q.ev[e].timeout && q.ev[e].common == Some(i) {
      RemoveSorted(q.ev, s, e);
      RemoveProps(s, e);
      hide Remove;
      var s' := Remove(s, e);
      if s' != [] { assert s'[0] in s'; }
    }
  }

  /** A list that starts no earlier than it did is still looked after. */
  lemma FrontStays(ev: map<Id, Event>, c: CommonList, c': CommonList, e: Id, r: Event)
    requires FrontDue(ev, c) && c'.front == c.front && e in ev && r.deadline == ev[e].deadline
    requires e == c.front ==> r.active
    requires c'.events == [] ||
             (c.events != [] && c.events[0] in ev && c'.events[0] in ev
               && ev[c.events[0]].deadline <= ev[c'.events[0]].deadline)
    ensures FrontDue(ev[e := r], c')
  {
  }

  /** `e` does not stand for a list. */
  predicate NotFront(cs: seq<CommonList>, e: Id) {
    forall i :: 0 <= i < |cs| ==> cs[i].front != e
  }

  lemma UserNotFront(ev: map<Id, Event>, cs: seq<CommonList>, e: Id, busy: set<nat>)
    requires FrontsOk(ev, cs, busy) && e in ev && (!ev[e].internal || ev[e].persist)
    ensures NotFront(cs, e)
  {
    hide FrontDue;
  }

  /** An event that stands for no list leaves: every list is still looked after. */
  lemma FrontsLeave(q: Queues, q': Queues, e: Id, r: Event, busy: set<nat>)
    requires QueuesOk(q) && FrontsOk(q.ev, q.commons, busy) && e in q.ev && NotFront(q.commons, e)
    requires q'.ev == q.ev[e := r] && r.deadline == q.ev[e].deadline
    requires |q'.commons| == |q.commons|
    requires forall i :: 0 <= i < |q.commons| ==>
               q'.commons[i] == CommonList(q.commons[i].front, Left(q.ev, q.commons, e, i))
    ensures FrontsOk(q'.ev, q'.commons, busy)
  {
    hide QueuesOk, Left, FrontDue;
    forall i | 0 <= i < |q.commons| && i !in busy ensures FrontDue(q'.ev, q'.commons[i]) {
      LeftLater(q, e, i);
      FrontStays(q.ev, q.commons[i], q'.commons[i], e, r);
    }
  }

  /** The timeout of `e` is set to `deadline`. */
  function Retime(q: Queues, e: Id, deadline: Time, common: Option<nat>): Queues
    requires Deletes(q, e) && CommonsKnown(q) && (common.Some? ==> common.value < |q.commons|)
  {
    UnscheduledKnown(q, e);
    InsertTimeout(Unscheduled(q, e), e, deadline, common)
  }

  lemma UnscheduledKnown(q: Queues, e: Id)
    requires Deletes(q, e) && CommonsKnown(q)
    ensures CommonsKnown(Unscheduled(q, e)) && e in Unscheduled(q, e).ev && |Unscheduled(q, e).commons| == |q.commons|
  {
    UnscheduledEv(q, e);
    UnscheduledCommons(q, e);
    var q' := Unscheduled(q, e);
    forall i, j | 0 <= i < |q'.commons| && 0 <= j < |q'.commons[i].events| ensures q'.commons[i].events[j] in q'.ev {
      RemoveSubset(q.commons[i].events, e);
      assert q'.commons[i].events[j] in q'.commons[i].events;
      assert q'.commons[i].events[j] in q.commons[i].events;
    }
  }

  lemma {:induction false} RemoveSubset(s: seq<Id>, e: Id)
    ensures forall x :: x in Remove(s, e) ==> x in s
  {
    if s != [] {
      RemoveSubset(s[1..], e);
    }
  }

  lemma KnownOk(q: Queues)
    requires QueuesOk(q)
    ensures CommonsKnown(q)
  {
    assert CommonOk(q.ev, q.commons);
  }

  lemma RetimeOk(q: Queues, e: Id, deadline: Time, common: Option<nat>)
    requires QueuesOk(q) && e in q.ev && (common.Some? ==> common.value < |q.commons|)
    ensures Deletes(q, e) && CommonsKnown(q) && QueuesOk(Retime(q, e, deadline, common))
  {
    KnownOk(q);
    UnscheduledOk(q, e);
    UnscheduledEv(q, e);
    UnscheduledKnown(q, e);
    hide QueuesOk, Unscheduled;
    InsertTimeoutOk(Unscheduled(q, e), e, deadline, common);
  }

  function Timed(r: Event, deadline: Time, common: Option<nat>): Event {
    Stopped(r).(timeout := true, deadline := deadline, common := common)
  }

  lemma RetimeEv(q: Queues, e: Id, deadline: Time, common: Option<nat>)
    requires Deletes(q, e) && CommonsKnown(q) && (common.Some? ==> common.value < |q.commons|)
    ensures Retime(q, e, deadline, common).ev == q.ev[e := Timed(q.ev[e], deadline, common)]
  {
    UnscheduledEv(q, e);
    UnscheduledKnown(q, e);
    hide Unscheduled, Place, InsertAt;
    UpdateTwice(q.ev, e, Stopped(q.ev[e]), Timed(q.ev[e], deadline, common));
  }

  lemma RetimeHeap(q: Queues, e: Id, deadline: Time, common: Option<nat>)
    requires QueuesOk(q) && Deletes(q, e) && CommonsKnown(q) && (common.Some? ==> common.value < |q.commons|)
    ensures Retime(q, e, deadline, common).timeheap == if common.None? then q.timeheap + {e} else q.timeheap - {e}
  {
    UnscheduledHeap(q, e);
    UnscheduledKnown(q, e);
    hide Unscheduled, Place, InsertAt, QueuesOk;
  }

  /** The front event of list `i` is put into the heap for the first of the list (`common_timeout_schedule`). */
  function Schedule(q: Queues, i: nat): Queues
    requires i < |q.commons| && q.commons[i].events != [] && CommonsKnown(q) && Deletes(q, q.commons[i].front)
  {
    Retime(q, q.commons[i].front, q.ev[q.commons[i].events[0]].deadline, None)
  }

  lemma RetimeHeapCommons(q: Queues, e: Id, deadline: Time)
    requires Deletes(q, e) && CommonsKnown(q) && !(q.ev[e].timeout && q.ev[e].common.Some?)
    ensures Retime(q, e, deadline, None).commons == q.commons
  {
    UnscheduledCommons(q, e);
    UnscheduledKnown(q, e);
    hide Unscheduled;
  }

  lemma ScheduleOk(q: Queues, i: nat, busy: set<nat>)
    requires QueuesOk(q) && FrontsOk(q.ev, q.commons, busy + {i}) && i < |q.commons| && q.commons[i].events != []
    ensures CommonsKnown(q) && Deletes(q, q.commons[i].front) && QueuesOk(Schedule(q, i))
    ensures FrontsOk(Schedule(q, i).ev, Schedule(q, i).commons, busy)
    ensures Schedule(q, i).commons == q.commons
  {
    KnownOk(q);
    var te, d := q.commons[i].front, q.ev[q.commons[i].events[0]].deadline;
    assert FrontEvent(q.ev[te]);
    RetimeOk(q, te, d, None);
    RetimeEv(q, te, d, None);
    RetimeHeapCommons(q, te, d);
    ListsApart(q, te);
    hide QueuesOk, Retime, CommonsKnown, Deletes;
    FrontScheduled(q.ev, q.commons, i, Timed(q.ev[te], d, None), busy);
  }

  /** The front event of list `i` is set to the deadline of the first of the list. */
  lemma FrontScheduled(ev: map<Id, Event>, cs: seq<CommonList>, i: nat, r: Event, busy: set<nat>)
    requires FrontsOk(ev, cs, busy + {i}) && i < |cs| && cs[i].events != [] && cs[i].events[0] in ev
    requires FrontEvent(r) && r.timeout && r.deadline == ev[cs[i].events[0]].deadline
    requires forall j :: 0 <= j < |cs| && cs[j].events != [] ==> cs[j].events[0] != cs[i].front
    ensures FrontsOk(ev[cs[i].front := r], cs, busy)
  {
    var ev' := ev[cs[i].front := r];
    forall j | 0 <= j < |cs| && j !in busy ensures FrontDue(ev', cs[j]) {
      if j != i { assert FrontDue(ev, cs[j]); }
    }
    hide FrontDue;
  }

  /** An event that is not in a common list is not the first of one. */
  lemma ListsApart(q: Queues, e: Id)
    requires QueuesOk(q) && e in q.ev && !(q.ev[e].timeout && q.ev[e].common.Some?)
    ensures forall j :: 0 <= j < |q.commons| && q.commons[j].events != [] ==> q.commons[j].events[0] != e
  {
    assert CommonOk(q.ev, q.commons);
    forall j | 0 <= j < |q.commons| && q.commons[j].events != [] ensures q.commons[j].events[0] != e {
      assert q.commons[j].events[0] in q.commons[j].events;
    }
  }

  /** A user event that heads no list changes. */
  lemma FrontsUser(ev: map<Id, Event>, cs: seq<CommonList>, e: Id, r: Event, busy: set<nat>)
    requires FrontsOk(ev, cs, busy) && e in ev && !ev[e].internal && !r.internal
    requires forall j :: 0 <= j < |cs| && cs[j].events != [] ==> cs[j].events[0] != e
    ensures FrontsOk(ev[e := r], cs, busy)
  {
    forall j | 0 <= j < |cs| && j !in busy ensures FrontDue(ev[e := r], cs[j]) {
      assert FrontDue(ev, cs[j]);
    }
    hide FrontDue;
  }

  /** A user event joins list `c`; if it becomes the first, the front event has to be set again. */
  lemma FrontsJoin(ev: map<Id, Event>, cs: seq<CommonList>, c: nat, k: nat, e: Id, busy: set<nat>)
    requires FrontsOk(ev, cs, busy) && c < |cs| && k <= |cs[c].events|
    ensures FrontsOk(ev, cs[c := cs[c].(events := InsertAt(cs[c].events, k, e))], if k == 0 then busy + {c} else busy)
  {
    if k > 0 {
      assert c !in busy ==> FrontDue(ev, cs[c]);
    }
  }

  /** `e` is now the first of the common list it was put into. */
  predicate Heads(q: Queues, e: Id, common: Option<nat>) {
    common.Some? && common.value < |q.commons| && q.commons[common.value].events != []
      && q.commons[common.value].events[0] == e
  }

  /** The event is out of its old place. */
  lemma UnscheduledFronts(q: Queues, e: Id, busy: set<nat>)
    requires QueuesOk(q) && FrontsOk(q.ev, q.commons, busy) && e in q.ev && !q.ev[e].internal
    ensures Deletes(q, e)
    ensures var u := Unscheduled(q, e);
            && FrontsOk(u.ev, u.commons, busy)
            && forall j :: 0 <= j < |u.commons| && u.commons[j].events != [] ==> u.commons[j].events[0] != e
  {
    hide QueuesOk, Unscheduled, FrontsOk, Left;
    UnscheduledOk(q, e);
    UnscheduledEv(q, e);
    UnscheduledCommons(q, e);
    UserNotFront(q.ev, q.commons, e, busy);
    FrontsLeave(q, Unscheduled(q, e), e, Stopped(q.ev[e]), busy);
    ListsApart(Unscheduled(q, e), e);
  }

  lemma RetimeFronts(q: Queues, e: Id, deadline: Time, common: Option<nat>, busy: set<nat>)
    requires QueuesOk(q) && FrontsOk(q.ev, q.commons, busy) && e in q.ev && !q.ev[e].internal
    requires common.Some? ==> common.value < |q.commons|
    ensures Deletes(q, e) && CommonsKnown(q)
    ensures var q' := Retime(q, e, deadline, common);
            FrontsOk(q'.ev, q'.commons, if Heads(q', e, common) then busy + {common.value} else busy)
  {
    hide QueuesOk, Unscheduled, FrontsOk, Place;
    KnownOk(q);
    UnscheduledFronts(q, e, busy);
    UnscheduledEv(q, e);
    UnscheduledKnown(q, e);
    var u := Unscheduled(q, e);
    var r := u.ev[e].(timeout := true, deadline := deadline, common := common);
    FrontsUser(u.ev, u.commons, e, r, busy);
    if common.Some? {
      var c := common.value;
      FrontsJoin(u.ev[e := r], u.commons, c, Place(u.ev, u.commons[c].events, deadline), e, busy);
    }
  }

  lemma DelFronts(q: Queues, e: Id, busy: set<nat>)
    requires QueuesOk(q) && FrontsOk(q.ev, q.commons, busy) && e in q.ev && NotFront(q.commons, e)
    ensures Deletes(q, e) && FrontsOk(Del(q, e).ev, Del(q, e).commons, busy)
  {
    Deletable(q, e);
    DelEv(q, e);
    DelCommons(q, e);
    hide QueuesOk, Del, FrontsOk;
    FrontsLeave(q, Del(q, e), e, Cleared(q.ev[e]), busy);
  }

  lemma FrontsActivated(ev: map<Id, Event>, cs: seq<CommonList>, e: Id, byTimeout: bool, busy: set<nat>)
    requires FrontsOk(ev, cs, busy) && e in ev
    ensures FrontsOk(ev[e := Activated(ev[e], byTimeout)], cs, busy)
  {
    var ev' := ev[e := Activated(ev[e], byTimeout)];
    forall j | 0 <= j < |cs| && j !in busy ensures FrontDue(ev', cs[j]) {
      assert FrontDue(ev, cs[j]);
    }
    hide FrontDue;
  }

  lemma ActivateCommons(q: Queues, e: Id, byTimeout: bool)
    requires Deletes(q, e)
    ensures Activate(q, e, byTimeout).commons == q.commons && Activate(q, e, byTimeout).timeheap == q.timeheap
  {
  }

  /** Any event is activated. */
  lemma ActivateFronts(q: Queues, e: Id, byTimeout: bool, busy: set<nat>)
    requires QueuesOk(q) && FrontsOk(q.ev, q.commons, busy) && e in q.ev
    ensures Deletes(q, e) && FrontsOk(Activate(q, e, byTimeout).ev, Activate(q, e, byTimeout).commons, busy)
  {
    Deletable(q, e);
    ActivateEv(q, e, byTimeout);
    ActivateCommons(q, e, byTimeout);
    hide QueuesOk, Activate, FrontsOk, Activated;
    FrontsActivated(q.ev, q.commons, e, byTimeout, busy);
  }

  lemma FrontGone(ev: map<Id, Event>, cs: seq<CommonList>, i: nat, busy: set<nat>)
    requires FrontsOk(ev, cs, busy) && i < |cs|
    requires forall j :: 0 <= j < |cs| && cs[j].events != [] ==> cs[j].events[0] != cs[i].front
    ensures FrontsOk(ev[cs[i].front := Cleared(ev[cs[i].front])], cs, busy + {i})
  {
    var ev' := ev[cs[i].front := Cleared(ev[cs[i].front])];
    forall j | 0 <= j < |cs| && j !in busy + {i} ensures FrontDue(ev', cs[j]) {
      assert FrontDue(ev, cs[j]);
    }
    hide FrontDue;
  }

  /** The front event of list `i` is deleted: the list is busy until its callback has run. */
  lemma DelFrontEvent(q: Queues, i: nat, busy: set<nat>)
    requires QueuesOk(q) && FrontsOk(q.ev, q.commons, busy) && i < |q.commons|
    ensures q.commons[i].front in q.ev && Deletes(q, q.commons[i].front)
    ensures var d := Del(q, q.commons[i].front); FrontsOk(d.ev, d.commons, busy + {i}) && d.commons == q.commons
  {
    var te := q.commons[i].front;
    Deletable(q, te);
    DelEv(q, te);
    DelCommons(q, te);
    ListsApart(q, te);
    hide QueuesOk, Del, FrontDue;
    assert Del(q, te).commons == q.commons;
    FrontGone(q.ev, q.commons, i, busy);
  }

  // ------------------------------------------------------------ expiry

  /** What expiry makes of an event: off every queue, then active because of its timeout. */
  function Fired(r: Event): Event {
    Activated(Cleared(r), true)
  }

  /** An event whose deadline has come is active because of that, waits for nothing any more, and is otherwise as it
      was. */
  predicate Expired(r: Event, r': Event) {
    && r'.active && r'.byTimeout && !r'.inserted && !r'.timeout
    && r'.deadline == r.deadline && r'.common == r.common
    && r'.internal == r.internal && r'.pri == r.pri && r'.io == r.io && r'.persist == r.persist
  }

  function Fire(q: Queues, e: Id): Queues
    requires Deletes(q, e)
  {
    DelEv(q, e);
    DelQueues(q, e);
    Activate(Del(q, e), e, true)
  }

  lemma DelQueues(q: Queues, e: Id)
    requires Deletes(q, e)
    ensures Deletes(Del(q, e), e)
  {
    hide Remove;
  }

  lemma FireOk(q: Queues, e: Id)
    requires QueuesOk(q) && e in q.ev
    ensures Deletes(q, e) && QueuesOk(Fire(q, e))
    ensures Fire(q, e).ev == q.ev[e := Fired(q.ev[e])]
    ensures Fire(q, e).timeheap == q.timeheap - {e}
  {
    DelOk(q, e);
    DelQueues(q, e);
    hide QueuesOk, Del, Activate, Activated, Cleared;
    var d := Del(q, e);
    ActivateOk(d, e, true);
    ActivateCommons(d, e, true);
    UpdateTwice(q.ev, e, Cleared(q.ev[e]), Fired(q.ev[e]));
  }

  lemma FireCommons(q: Queues, e: Id)
    requires Deletes(q, e)
    ensures var cs := Fire(q, e).commons;
            |cs| == |q.commons| && forall i :: 0 <= i < |cs| ==>
              cs[i] == CommonList(q.commons[i].front, Left(q.ev, q.commons, e, i))
  {
    DelCommons(q, e);
    DelQueues(q, e);
    ActivateCommons(Del(q, e), e, true);
    hide Del, Activate;
  }

  /** Firing a heap event keeps the lists looked after: a front event is now active. */
  lemma FireFronts(q: Queues, e: Id, busy: set<nat>)
    requires QueuesOk(q) && FrontsOk(q.ev, q.commons, busy) && e in q.ev
    ensures Deletes(q, e) && FrontsOk(Fire(q, e).ev, Fire(q, e).commons, busy)
  {
    hide QueuesOk, Fire, Left, FrontDue, Fired, Deletes;
    FireOk(q, e);
    FireCommons(q, e);
    var q' := Fire(q, e);
    FiredActive(q.ev[e]);
    forall j | 0 <= j < |q.commons| && j !in busy ensures FrontDue(q'.ev, q'.commons[j]) {
      LeftLater(q, e, j);
      FrontStays(q.ev, q.commons[j], q'.commons[j], e, Fired(q.ev[e]));
    }
  }

  lemma FiredActive(r: Event)
    ensures Fired(r).active && Fired(r).deadline == r.deadline && Fired(r).internal == r.internal
    ensures FrontEvent(r) ==> FrontEvent(Fired(r))
  {
  }

  /** Events that become active go behind those that are, and those stay in order; only `moved` ones may lose their
      places. */
  ghost predicate Orderly(was: Queues, now: Queues, moved: set<Id>) {
    && |now.commons| == |was.commons| && |now.activequeues| == |was.activequeues|
    && forall p :: 0 <= p < |was.activequeues| ==> Joined(was.activequeues[p], now.activequeues[p], moved)
  }

  ghost predicate Joined(s: seq<Id>, t: seq<Id>, moved: set<Id>) {
    forall x :: x in s && x !in moved ==> x in t && forall y :: Ahead(t, y, x) ==> Ahead(s, y, x)
  }

  lemma OrderlyTrans(a: Queues, b: Queues, c: Queues, moved: set<Id>, more: set<Id>)
    requires Orderly(a, b, moved) && Orderly(b, c, more) && more <= moved
    ensures Orderly(a, c, moved)
  {
    hide Ahead;
    forall p | 0 <= p < |a.activequeues| ensures Joined(a.activequeues[p], c.activequeues[p], moved) {
      assert Joined(a.activequeues[p], b.activequeues[p], moved);
      assert Joined(b.activequeues[p], c.activequeues[p], more);
    }
  }

  lemma JoinedLast(s: seq<Id>, e: Id)
    requires e !in s
    ensures Joined(s, s + [e], {})
  {
  }

  lemma OrderlyRefl(q: Queues, moved: set<Id>)
    ensures Orderly(q, q, moved)
  {
  }

  lemma ActivateOrderly(q: Queues, e: Id, byTimeout: bool)
    requires QueuesOk(q) && e in q.ev
    ensures Deletes(q, e) && Orderly(q, Activate(q, e, byTimeout), {})
  {
    Deletable(q, e);
    assert ActiveOk(q.ev, q.activequeues);
    if !q.ev[e].active { JoinedLast(q.activequeues[q.ev[e].pri], e); }
    hide QueuesOk, Ahead;
  }

  lemma DelOrderly(q: Queues, e: Id)
    requires Deletes(q, e)
    ensures Orderly(q, Del(q, e), {e})
  {
    RemoveThins(q.activequeues[q.ev[e].pri], e);
    hide Remove, Ahead;
  }

  lemma FireOrderly(q: Queues, e: Id)
    requires QueuesOk(q) && e in q.ev
    ensures Deletes(q, e) && Orderly(q, Fire(q, e), {e})
  {
    DelOk(q, e);
    DelOrderly(q, e);
    DelQueues(q, e);
    ActivateOrderly(Del(q, e), e, true);
    hide QueuesOk, Orderly, Del, Activate;
    OrderlyTrans(q, Del(q, e), Fire(q, e), {e}, {});
  }

  lemma {:induction false} MinExists(ev: map<Id, Event>, heap: set<Id>)
    requires heap != {} && forall e :: e in heap ==> e in ev
    ensures exists e :: IsTop(ev, heap, e)
    decreases |heap|
  {
    var x :| x in heap;
    var rest := heap - {x};
    if rest == {} {
      assert heap == {x};
      assert IsTop(ev, heap, x);
    } else {
      MinExists(ev, rest);
      var y :| IsTop(ev, rest, y);
      if ev[x].deadline <= ev[y].deadline {
        assert IsTop(ev, heap, x);
      } else {
        assert IsTop(ev, heap, y);
      }
    }
  }

  /** `e` may be at the top of the heap; among equal deadlines the heap decides. */
  predicate IsTop(ev: map<Id, Event>, heap: set<Id>, e: Id) {
    e in heap && e in ev && forall x :: x in heap ==> x in ev && ev[e].deadline <= ev[x].deadline
  }

  predicate HeapDue(r: Event, now: Time) {
    r.timeout && r.common.None? && r.deadline <= now
  }

  predicate ListDue(r: Event, i: nat, now: Time) {
    r.timeout && r.common == Some(i) && r.deadline <= now
  }

  ghost function DueInHeap(ev: map<Id, Event>, now: Time): set<Id> {
    set e | e in ev && HeapDue(ev[e], now)
  }

  ghost function DueInList(ev: map<Id, Event>, i: nat, now: Time): set<Id> {
    set e | e in ev && ListDue(ev[e], i, now)
  }

  lemma HeapKnown(q: Queues)
    requires QueuesOk(q)
    ensures forall e :: e in q.timeheap <==> e in q.ev && q.ev[e].timeout && q.ev[e].common.None?
  {
  }

  lemma FireHeapCommons(q: Queues, e: Id)
    requires Deletes(q, e) && q.ev[e].common.None?
    ensures Fire(q, e).commons == q.commons
  {
    FireCommons(q, e);
    hide Fire;
  }

  /** Some due events of the heap have fired, nothing else has changed. */
  ghost predicate HeapFiring(ev0: map<Id, Event>, ev: map<Id, Event>, now: Time) {
    ev.Keys == ev0.Keys && forall e :: e in ev ==> ev[e] == ev0[e] || (HeapDue(ev0[e], now) && ev[e] == Fired(ev0[e]))
  }

  /** All of them have. */
  ghost predicate HeapFired(ev0: map<Id, Event>, ev: map<Id, Event>, now: Time) {
    ev.Keys == ev0.Keys && forall e :: e in ev ==> 
      if HeapDue(ev0[e], now) then Expired(ev0[e], ev[e]) else ev[e] == ev0[e]
  }

  /** `timeout_process`: exactly the heap events whose deadline has come become active. */
  method TimeoutProcess(q0: Queues, now: Time, ghost busy: set<nat>) returns (q: Queues)
    requires QueuesOk(q0) && FrontsOk(q0.ev, q0.commons, busy)
    ensures QueuesOk(q) && FrontsOk(q.ev, q.commons, busy)
    ensures HeapFired(q0.ev, q.ev, now) && q.commons == q0.commons
    ensures Orderly(q0, q, DueInHeap(q0.ev, now))
  {
    hide QueuesOk, FrontsOk, Fire, Fired, Deletes, Orderly;
    q := q0;
    ghost var due := DueInHeap(q0.ev, now);
    OrderlyRefl(q0, due);
    while q.timeheap != {}
      invariant QueuesOk(q) && FrontsOk(q.ev, q.commons, busy)
      invariant HeapFiring(q0.ev, q.ev, now) && q.commons == q0.commons && Orderly(q0, q, due)
      decreases |q.timeheap|
    {
      HeapKnown(q);
      MinExists(q.ev, q.timeheap);
      var top :| IsTop(q.ev, q.timeheap, top);
      if q.ev[top].deadline > now { break; }
      FireOk(q, top);
      FireFronts(q, top, busy);
      FireHeapCommons(q, top);
      FiredOnce(q0.ev, q.ev, top, now);
      FireOrderly(q, top);
      OrderlyTrans(q0, q, Fire(q, top), due, {top});
      q := Fire(q, top);
    }
    HeapKnown(q);
    HeapAllFired(q0.ev, q.ev, now);
  }

  lemma HeapAllFired(ev0: map<Id, Event>, ev: map<Id, Event>, now: Time)
    requires HeapFiring(ev0, ev, now) && forall e :: e in ev ==> !HeapDue(ev[e], now)
    ensures HeapFired(ev0, ev, now)
  {
  }

  lemma FiredOnce(ev0: map<Id, Event>, ev: map<Id, Event>, e: Id, now: Time)
    requires HeapFiring(ev0, ev, now) && e in ev && HeapDue(ev[e], now)
    ensures HeapFiring(ev0, ev[e := Fired(ev[e])], now) && e in ev0 && HeapDue(ev0[e], now)
  {
    assert !Fired(ev0[e]).timeout;
  }

  ghost predicate ListFiring(ev0: map<Id, Event>, ev: map<Id, Event>, i: nat, now: Time) {
    && ev.Keys == ev0.Keys
    && forall e :: e in ev ==> ev[e] == ev0[e] || (ListDue(ev0[e], i, now) && ev[e] == Fired(ev0[e]))
  }

  /** Exactly the due events of list `i` have fired; apart from them only `front` may have changed, and
      only in its place in the heap. */
  ghost predicate ListFired(ev0: map<Id, Event>, ev: map<Id, Event>, i: nat, front: Id, now: Time) {
    && ev.Keys == ev0.Keys
    && (forall e :: e in ev && e != front ==>
          if ListDue(ev0[e], i, now) then Expired(ev0[e], ev[e]) else ev[e] == ev0[e])
    && (front in ev ==> ev[front].internal == ev0[front].internal && (ev[front].inserted ==> ev0[front].inserted))
  }

  ghost predicate OthersKept(cs0: seq<CommonList>, cs: seq<CommonList>, i: nat) {
    |cs| == |cs0| && forall j :: 0 <= j < |cs| ==> cs[j].front == cs0[j].front && (j != i ==> cs[j] == cs0[j])
  }

  /** The first of list `i` fires. */
  lemma FireHead(q: Queues, i: nat)
    requires QueuesOk(q) && i < |q.commons| && q.commons[i].events != []
    ensures var e := q.commons[i].events[0];
            && e in q.ev && q.ev[e].timeout && q.ev[e].common == Some(i) && Deletes(q, e)
            && OthersKept(q.commons, Fire(q, e).commons, i)
            && Fire(q, e).commons[i].events == q.commons[i].events[1..]
  {
    var e := q.commons[i].events[0];
    HeadKnown(q, i);
    Deletable(q, e);
    FireCommons(q, e);
    hide Fire, QueuesOk;
  }

  lemma HeadKnown(q: Queues, i: nat)
    requires QueuesOk(q) && i < |q.commons| && q.commons[i].events != []
    ensures var e := q.commons[i].events[0]; e in q.ev && q.ev[e].timeout && q.ev[e].common == Some(i)
  {
    assert CommonOk(q.ev, q.commons);
    assert q.commons[i].events[0] in q.commons[i].events;
  }

  lemma HeadFiredOnce(ev0: map<Id, Event>, ev: map<Id, Event>, e: Id, i: nat, now: Time)
    requires ListFiring(ev0, ev, i, now) && e in ev && ListDue(ev[e], i, now)
    ensures ListFiring(ev0, ev[e := Fired(ev[e])], i, now) && e in ev0 && ListDue(ev0[e], i, now)
  {
    assert !Fired(ev0[e]).timeout;
  }

  /** When the first of a list is not due, none is. */
  lemma NoneDue(q: Queues, i: nat, now: Time)
    requires QueuesOk(q) && i < |q.commons|
    requires q.commons[i].events != [] ==> q.commons[i].events[0] in q.ev && q.ev[q.commons[i].events[0]].deadline > now
    ensures forall e :: e in q.ev ==> !ListDue(q.ev[e], i, now)
  {
    assert CommonOk(q.ev, q.commons);
    var s := q.commons[i].events;
    forall e | e in q.ev && q.ev[e].timeout && q.ev[e].common == Some(i) ensures q.ev[e].deadline > now {
      assert e in s;
      var k :| 0 <= k < |s| && s[k] == e;
      assert q.ev[s[0]].deadline <= q.ev[s[k]].deadline;
    }
  }

  lemma ListAllFired(q0: Queues, q: Queues, i: nat, now: Time)
    requires ListFiring(q0.ev, q.ev, i, now)
    requires forall e :: e in q.ev ==> !ListDue(q.ev[e], i, now)
    ensures forall front :: ListFired(q0.ev, q.ev, i, front, now)
  {
  }

  /** `common_timeout_callback` for list `i`: exactly its due events become active, and what is left is
      looked after again. */
  method CommonCallback(q0: Queues, i: nat, now: Time, ghost busy: set<nat>) returns (q: Queues)
    requires QueuesOk(q0) && FrontsOk(q0.ev, q0.commons, busy) && i < |q0.commons| && i in busy
    ensures QueuesOk(q) && FrontsOk(q.ev, q.commons, busy - {i})
    ensures ListFired(q0.ev, q.ev, i, q0.commons[i].front, now) && OthersKept(q0.commons, q.commons, i)
    ensures forall e :: e in q.ev ==> !ListDue(q.ev[e], i, now)
    ensures Orderly(q0, q, {q0.commons[i].front} + DueInList(q0.ev, i, now))
  {
    hide QueuesOk, FrontsOk, Fire, Fired, Deletes, Orderly;
    q := q0;
    ghost var due := {q0.commons[i].front} + DueInList(q0.ev, i, now);
    OrderlyRefl(q0, due);
    if q.commons[i].events != [] { HeadKnown(q, i); }
    while q.commons[i].events != [] && q.ev[q.commons[i].events[0]].deadline <= now
      invariant QueuesOk(q) && FrontsOk(q.ev, q.commons, busy)
      invariant OthersKept(q0.commons, q.commons, i) && ListFiring(q0.ev, q.ev, i, now) && Orderly(q0, q, due)
      invariant q.commons[i].events != [] ==> q.commons[i].events[0] in q.ev
      decreases |q.commons[i].events|
    {
      var e := q.commons[i].events[0];
      FireHead(q, i);
      FireOk(q, e);
      FireFronts(q, e, busy);
      HeadFiredOnce(q0.ev, q.ev, e, i, now);
      FireOrderly(q, e);
      OrderlyTrans(q0, q, Fire(q, e), due, {e});
      q := Fire(q, e);
      if q.commons[i].events != [] { HeadKnown(q, i); }
    }
    NoneDue(q, i, now);
    ListAllFired(q0, q, i, now);
    if q.commons[i].events != [] {
      assert busy == busy - {i} + {i};
      ScheduleOk(q, i, busy - {i});
      ScheduleKeeps(q0.ev, q, i, now);
      ScheduleOrderly(q, i);
      OrderlyTrans(q0, q, Schedule(q, i), due, {q.commons[i].front});
      q := Schedule(q, i);
    } else {
      FrontsEmpty(q, i, busy);
    }
  }

  lemma ScheduleKeeps(ev0: map<Id, Event>, q: Queues, i: nat, now: Time)
    requires i < |q.commons| && q.commons[i].events != [] && CommonsKnown(q) && Deletes(q, q.commons[i].front)
    requires ListFired(ev0, q.ev, i, q.commons[i].front, now) && forall e :: e in q.ev ==> !ListDue(q.ev[e], i, now)
    ensures ListFired(ev0, Schedule(q, i).ev, i, q.commons[i].front, now)
    ensures forall e :: e in Schedule(q, i).ev ==> !ListDue(Schedule(q, i).ev[e], i, now)
  {
    var te, d := q.commons[i].front, q.ev[q.commons[i].events[0]].deadline;
    RetimeEv(q, te, d, None);
    hide Retime, Fired, Deletes;
    assert Schedule(q, i).ev == q.ev[te := Timed(q.ev[te], d, None)];
  }

  lemma RetimeOrderly(q: Queues, e: Id, deadline: Time, common: Option<nat>)
    requires Deletes(q, e) && CommonsKnown(q) && (common.Some? ==> common.value < |q.commons|)
    ensures Orderly(q, Retime(q, e, deadline, common), {e})
  {
    RemoveThins(q.activequeues[q.ev[e].pri], e);
    UnscheduledKnown(q, e);
    assert Orderly(q, Unscheduled(q, e), {e}) by { hide Remove, Ahead; }
    hide Unscheduled, Place, InsertAt, Joined;
  }

  lemma ScheduleOrderly(q: Queues, i: nat)
    requires i < |q.commons| && q.commons[i].events != [] && CommonsKnown(q) && Deletes(q, q.commons[i].front)
    ensures Orderly(q, Schedule(q, i), {q.commons[i].front})
  {
    RetimeOrderly(q, q.commons[i].front, q.ev[q.commons[i].events[0]].deadline, None);
    hide Retime;
  }

  lemma FrontsEmpty(q: Queues, i: nat, busy: set<nat>)
    requires FrontsOk(q.ev, q.commons, busy) && i < |q.commons| && q.commons[i].events == []
    ensures FrontsOk(q.ev, q.commons, busy - {i})
  {
  }

  // ------------------------------------------------------------ both levels together

  /** After the heap and the first `n` lists. */
  ghost predicate ExpiredUpTo(ev0: map<Id, Event>, ev: map<Id, Event>, n: nat, now: Time) {
    && ev.Keys == ev0.Keys
    && (forall e :: e in ev ==> ev[e].internal == ev0[e].internal)
    && forall e :: e in ev && !ev0[e].internal ==>
         if HeapDue(ev0[e], now)
           || (ev0[e].common.Some? && ev0[e].common.value < n && ListDue(ev0[e], ev0[e].common.value, now))
         then Expired(ev0[e], ev[e]) else ev[e] == ev0[e]
  }

  lemma HeapFiredUpTo(ev0: map<Id, Event>, ev: map<Id, Event>, now: Time)
    requires HeapFired(ev0, ev, now)
    ensures ExpiredUpTo(ev0, ev, 0, now)
  {
  }

  /** Nothing of list `n` was due. */
  lemma SkippedList(ev0: map<Id, Event>, ev: map<Id, Event>, n: nat, now: Time)
    requires ExpiredUpTo(ev0, ev, n, now) && forall e :: e in ev ==> !ListDue(ev[e], n, now)
    ensures ExpiredUpTo(ev0, ev, n + 1, now)
  {
  }

  lemma FiredList(ev0: map<Id, Event>, ev: map<Id, Event>, ev': map<Id, Event>, n: nat, front: Id, now: Time)
    requires ExpiredUpTo(ev0, ev, n, now) && ListFired(ev, ev', n, front, now)
    requires front in ev && ev[front].internal
    ensures ExpiredUpTo(ev0, ev', n + 1, now)
  {
  }

  /** A list whose front event is still in the heap has nothing due. */
  lemma FrontLater(q: Queues, i: nat, now: Time, busy: set<nat>)
    requires QueuesOk(q) && FrontsOk(q.ev, q.commons, busy) && i < |q.commons| && i !in busy
    requires !q.ev[q.commons[i].front].active
    requires ListsPast(q.ev, q.commons, i, now)
    ensures forall e :: e in q.ev ==> !ListDue(q.ev[e], i, now)
  {
    if q.commons[i].events != [] {
      HeadKnown(q, i);
      assert FrontDue(q.ev, q.commons[i]);
    }
    hide QueuesOk;
    NoneDue(q, i, now);
  }

  /** If the front event of list `i` is active, it is taken and its callback runs. */
  method ExpireList(q0: Queues, i: nat, now: Time, ghost ev0: map<Id, Event>) returns (q: Queues)
    requires QueuesOk(q0) && FrontsOk(q0.ev, q0.commons, {}) && i < |q0.commons|
    requires ExpiredUpTo(ev0, q0.ev, i, now) && ListsPast(q0.ev, q0.commons, i, now)
    ensures QueuesOk(q) && FrontsOk(q.ev, q.commons, {}) && |q.commons| == |q0.commons|
    ensures ExpiredUpTo(ev0, q.ev, i + 1, now) && ListsPast(q.ev, q.commons, i + 1, now)
  {
    var front := q0.commons[i].front;
    assert FrontEvent(q0.ev[front]);
    hide QueuesOk, Fired, Del, FrontDue, ExpiredUpTo;
    if q0.ev[front].active {
      DelOk(q0, front);
      DelFrontEvent(q0, i, {});
      assert {} + {i} == {i} && {i} - {i} == {};
      q := CommonCallback(Del(q0, front), i, now, {i});
      ghost var taken := q0.ev[front := Cleared(q0.ev[front])];
      FrontTaken(ev0, q0.ev, taken, front, i, now);
      FiredList(ev0, taken, q.ev, i, front, now);
      ListsStillPast(q0, taken, q, i, now);
    } else {
      q := q0;
      FrontLater(q, i, now, {});
      SkippedList(ev0, q.ev, i, now);
    }
  }

  /** One pass of the loop at time `now`: `timeout_process`, then the callbacks of the front events it made
      active.  Together they fire exactly the user events whose deadline has come, in the heap or in a list. */
  method ExpireAll(q0: Queues, now: Time) returns (q: Queues)
    requires QueuesOk(q0) && FrontsOk(q0.ev, q0.commons, {})
    ensures QueuesOk(q) && FrontsOk(q.ev, q.commons, {})
    ensures q.ev.Keys == q0.ev.Keys && forall e :: e in q.ev && !q0.ev[e].internal ==>
              if q0.ev[e].timeout && q0.ev[e].deadline <= now then Expired(q0.ev[e], q.ev[e]) else q.ev[e] == q0.ev[e]
  {
    hide QueuesOk, FrontsOk, ExpiredUpTo, ListsPast;
    q := TimeoutProcess(q0, now, {});
    HeapFiredUpTo(q0.ev, q.ev, now);
    HeapPast(q0.ev, q, now);
    var i := 0;
    while i < |q.commons|
      invariant i <= |q.commons| == |q0.commons|
      invariant QueuesOk(q) && FrontsOk(q.ev, q.commons, {})
      invariant ExpiredUpTo(q0.ev, q.ev, i, now) && ListsPast(q.ev, q.commons, i, now)
    {
      q := ExpireList(q, i, now, q0.ev);
      i := i + 1;
    }
    AllLists(q0, q, now);
  }

  /** The front events of the lists from `n` on that are in the heap are there for later. */
  ghost predicate ListsPast(ev: map<Id, Event>, cs: seq<CommonList>, n: nat, now: Time) {
    forall j :: n <= j < |cs| ==>
      && cs[j].front in ev
      && (ev[cs[j].front].timeout && ev[cs[j].front].common.None? ==> ev[cs[j].front].deadline > now)
  }

  lemma HeapPast(ev0: map<Id, Event>, q: Queues, now: Time)
    requires HeapFired(ev0, q.ev, now) && FrontsOk(q.ev, q.commons, {})
    ensures ListsPast(q.ev, q.commons, 0, now)
  {
    hide FrontDue;
  }

  lemma FrontTaken(ev0: map<Id, Event>, ev: map<Id, Event>, ev': map<Id, Event>, front: Id, n: nat, now: Time)
    requires ExpiredUpTo(ev0, ev, n, now) && front in ev && ev[front].internal && ev' == ev[front := Cleared(ev[front])]
    ensures ExpiredUpTo(ev0, ev', n, now)
  {
  }

  lemma ListsStillPast(q: Queues, taken: map<Id, Event>, q': Queues, i: nat, now: Time)
    requires FrontsOk(q.ev, q.commons, {}) && i < |q.commons| && ListsPast(q.ev, q.commons, i, now)
    requires taken == q.ev[q.commons[i].front := Cleared(q.ev[q.commons[i].front])]
    requires ListFired(taken, q'.ev, i, q.commons[i].front, now) && OthersKept(q.commons, q'.commons, i)
    ensures ListsPast(q'.ev, q'.commons, i + 1, now)
  {
    hide FrontDue;
    forall j | i + 1 <= j < |q'.commons|
      ensures q'.commons[j].front in q'.ev && q'.ev[q'.commons[j].front] == q.ev[q.commons[j].front]
    {
      assert FrontEvent(q.ev[q.commons[j].front]);
      assert q.commons[i].front != q.commons[j].front;
    }
  }

  lemma AllLists(q0: Queues, q: Queues, now: Time)
    requires QueuesOk(q0) && ExpiredUpTo(q0.ev, q.ev, |q0.commons|, now)
    ensures q.ev.Keys == q0.ev.Keys && forall e :: e in q.ev && !q0.ev[e].internal ==>
              if q0.ev[e].timeout && q0.ev[e].deadline <= now then Expired(q0.ev[e], q.ev[e]) else q.ev[e] == q0.ev[e]
  {
    assert CommonOk(q0.ev, q0.commons);
  }
}
