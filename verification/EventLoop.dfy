/**
 The event loop of libevent/event.c as one thread among many: the loop thread releases the base lock while it
 waits in the backend and while it runs a callback, and at those points other threads, or the callback itself,
 add, delete and activate events.  Each method is one stretch of code under the lock.
 */
module EventLoop {
  import opened Common
  import opened Lists
  import opened EventQueues
  import opened EventTimeouts

  /** MAX_EPOLL_TIMEOUT_MSEC. */
  const MAX_WAIT_MSEC := 35 * 60 * 1000
  const MAX_DEFERRED := 16

  /** What the loop thread is running with the lock released.  The drain callback first empties the wake-up
      fd, and only then takes the lock to say so. */
  datatype Callback = UserCallback | FrontCallback(i: nat) | DrainCallback | DrainedCallback

  /** Where the loop thread is. */
  datatype Phase =
    | Outside
    | Top
    | Blocked(until: Option<Time>, poll: bool, late: Time)
    | Choosing(p: nat)
    | InQueue(p: nat, count: nat)
    | Running(p: nat, count: nat, cb: Callback)
    | Deferring(n: nat)
    | RunningDeferred(n: nat)

  /** The phases in which the base lock is free. */
  predicate LockFree(ph: Phase) {
    ph.Outside? || ph.Blocked? || ph.Running? || ph.RunningDeferred?
  }

  /** The common list whose callback has been taken off the queue but has not run. */
  function Busy(ph: Phase): set<nat> {
    if ph.Running? && ph.cb.FrontCallback? then {ph.cb.i} else {}
  }

  predicate EmptyBelow(qs: seq<seq<Id>>, p: nat) {
    forall k :: 0 <= k < p && k < |qs| ==> qs[k] == []
  }

  /** Priorities: an event is taken from queue `p` only when the queues below it are empty. */
  predicate PriorityOk(ph: Phase, qs: seq<seq<Id>>, running: int, cont: bool) {
    match ph
    case Outside => running == -1
    case Top => running == -1
    case Blocked(_, _, _) => running == -1 && !cont
    case Choosing(p) => !cont && p <= |qs| && EmptyBelow(qs, p)
    case InQueue(p, _) => running == p < |qs| && !cont && EmptyBelow(qs, p)
    case Running(p, count, cb) =>
      && running == p < |qs| && (cont || EmptyBelow(qs, p)) && (p == 0 ==> !cont)
      && (count == 0 || !cb.UserCallback? ==> p == 0)
    case Deferring(n) => n < MAX_DEFERRED
    case RunningDeferred(n) => n < MAX_DEFERRED
  }

  /** When a wait ends, less the time by which it began late. */
  function Due(until: Option<Time>, late: Time): Option<Time> {
    match until case None => None case Some(u) => Some(u - late)
  }

  /** No deadline in the heap that a wait would sleep past; the wait is rounded up to a millisecond. */
  predicate WakesInTime(q: Queues, until: Option<Time>) {
    forall e :: e in q.timeheap ==> e in q.ev && until.Some? && until.value < q.ev[e].deadline + 1000
  }

  /** The heap's deadlines are no earlier than some deadline that was there before. */
  predicate NoEarlier(was: Queues, now: Queues) {
    forall e :: e in now.timeheap ==>
      e in now.ev && exists x :: x in was.timeheap && x in was.ev && was.ev[x].deadline <= now.ev[e].deadline
  }

  lemma StillInTime(was: Queues, now: Queues, until: Option<Time>)
    requires WakesInTime(was, until) && NoEarlier(was, now)
    ensures WakesInTime(now, until)
  {
  }

  /** Internal events come first, and the event for wake-ups is one of them. */
  ghost predicate InternalOk(q: Queues, notifyEvent: Id) {
    && (forall e :: e in q.ev && q.ev[e].internal ==> q.ev[e].pri == 0)
    && notifyEvent in q.ev && q.ev[notifyEvent].internal && q.ev[notifyEvent].persist
    && q.ev[notifyEvent].inserted && q.ev[notifyEvent].common.None? && !q.ev[notifyEvent].timeout
  }

  /** If `e` is not the top of the heap, an earlier deadline was there before. */
  lemma NotTop(was: Queues, now: Queues, e: Id, top: Id)
    requires IsTop(now.ev, now.timeheap, top) && top != e
    requires now.timeheap == was.timeheap + {e} || now.timeheap == was.timeheap
    requires forall x :: x in was.timeheap && x != e ==>
               x in was.ev && x in now.ev && now.ev[x].deadline == was.ev[x].deadline
    ensures NoEarlier(was, now)
  {
  }

  /** What the user may not change about an event by adding, deleting or activating it. */
  predicate SameKind(r: Event, r': Event) {
    r'.internal == r.internal && r'.pri == r.pri && r'.persist == r.persist && r'.io == r.io
  }

  lemma InternalFrame(q: Queues, q': Queues, notifyEvent: Id)
    requires InternalOk(q, notifyEvent) && q'.ev.Keys == q.ev.Keys
    requires forall e :: e in q.ev ==> SameKind(q.ev[e], q'.ev[e])
    requires q'.ev[notifyEvent].inserted && q'.ev[notifyEvent].common.None? && !q'.ev[notifyEvent].timeout
    ensures InternalOk(q', notifyEvent)
  {
  }

  /** The part of the invariant that is about the queues alone. */
  ghost predicate BaseOk(q: Queues, notifyEvent: Id, busy: set<nat>) {
    && QueuesOk(q) && FrontsOk(q.ev, q.commons, busy) && InternalOk(q, notifyEvent)
    && forall i :: i in busy ==> i < |q.commons|
  }

  /** Active queues: fewer events than before, or the same, in the same order; and no fewer common lists. */
  ghost predicate QueuesShrink(was: Queues, now: Queues) {
    && |now.commons| == |was.commons| && |now.activequeues| == |was.activequeues|
    && forall p :: 0 <= p < |was.activequeues| ==> Thinned(was.activequeues[p], now.activequeues[p])
  }

  lemma DelShrinks(q: Queues, e: Id)
    requires Deletes(q, e)
    ensures QueuesShrink(q, Del(q, e))
    ensures Del(q, e).countActive <= q.countActive
  {
    RemoveThins(q.activequeues[q.ev[e].pri], e);
    hide Thinned, Remove;
  }

  /** An event that stands for no list is deleted. */
  lemma DelBase(q: Queues, e: Id, notifyEvent: Id, busy: set<nat>)
    requires BaseOk(q, notifyEvent, busy) && e in q.ev
    requires !q.ev[e].internal || (e != notifyEvent && NotFront(q.commons, e))
    ensures Deletes(q, e) && BaseOk(Del(q, e), notifyEvent, busy) && NoEarlier(q, Del(q, e))
  {
    if !q.ev[e].internal { UserNotFront(q.ev, q.commons, e, busy); }
    DelOk(q, e);
    DelFronts(q, e, busy);
    DelCommons(q, e);
    HeapKnown(q);
    hide QueuesOk, FrontsOk, Del;
    InternalFrame(q, Del(q, e), notifyEvent);
  }

  lemma ActivateBase(q: Queues, e: Id, byTimeout: bool, notifyEvent: Id, busy: set<nat>)
    requires BaseOk(q, notifyEvent, busy) && e in q.ev
    ensures Deletes(q, e) && BaseOk(Activate(q, e, byTimeout), notifyEvent, busy)
  {
    ActivateOk(q, e, byTimeout);
    ActivateFronts(q, e, byTimeout, busy);
    ActivateCommons(q, e, byTimeout);
    hide QueuesOk, FrontsOk, Activate;
    InternalFrame(q, Activate(q, e, byTimeout), notifyEvent);
  }

  lemma InsertBase(q: Queues, e: Id, notifyEvent: Id, busy: set<nat>)
    requires BaseOk(q, notifyEvent, busy) && e in q.ev && !q.ev[e].internal && !q.ev[e].inserted
    ensures BaseOk(InsertInserted(q, e), notifyEvent, busy)
  {
    InsertInsertedOk(q, e);
    InsertFronts(q, e, busy);
    hide QueuesOk, FrontsOk;
    InternalFrame(q, InsertInserted(q, e), notifyEvent);
  }

  lemma InsertFronts(q: Queues, e: Id, busy: set<nat>)
    requires FrontsOk(q.ev, q.commons, busy) && e in q.ev && !q.ev[e].internal
    ensures FrontsOk(q.ev[e := q.ev[e].(inserted := true)], q.commons, busy)
  {
    var ev' := q.ev[e := q.ev[e].(inserted := true)];
    forall j | 0 <= j < |q.commons| && j !in busy ensures FrontDue(ev', q.commons[j]) {
      assert FrontDue(q.ev, q.commons[j]);
    }
    hide FrontDue;
  }

  lemma RetimeInternal(q: Queues, e: Id, deadline: Time, common: Option<nat>, notifyEvent: Id)
    requires InternalOk(q, notifyEvent) && Deletes(q, e) && CommonsKnown(q)
             && (common.Some? ==> common.value < |q.commons|)
    requires e != notifyEvent
    ensures InternalOk(Retime(q, e, deadline, common), notifyEvent)
  {
    RetimeEv(q, e, deadline, common);
    hide Retime;
    InternalFrame(q, Retime(q, e, deadline, common), notifyEvent);
  }

  lemma RetimeBase(q: Queues, e: Id, deadline: Time, common: Option<nat>, notifyEvent: Id, busy: set<nat>)
    requires BaseOk(q, notifyEvent, busy) && e in q.ev && !q.ev[e].internal
             && (common.Some? ==> common.value < |q.commons|)
    ensures Deletes(q, e) && CommonsKnown(q)
    ensures var q' := Retime(q, e, deadline, common);
            BaseOk(q', notifyEvent, if Heads(q', e, common) then busy + {common.value} else busy)
  {
    assert e != notifyEvent;
    hide QueuesOk, FrontsOk, Retime, InternalOk;
    RetimeOk(q, e, deadline, common);
    RetimeFronts(q, e, deadline, common, busy);
    RetimeLists(q, e, deadline, common);
    RetimeInternal(q, e, deadline, common, notifyEvent);
  }

  lemma RetimeLists(q: Queues, e: Id, deadline: Time, common: Option<nat>)
    requires Deletes(q, e) && CommonsKnown(q) && (common.Some? ==> common.value < |q.commons|)
    ensures |Retime(q, e, deadline, common).commons| == |q.commons|
  {
    UnscheduledKnown(q, e);
    hide Unscheduled, Place, InsertAt;
  }

  lemma ScheduleBase(q: Queues, i: nat, notifyEvent: Id, busy: set<nat>)
    requires BaseOk(q, notifyEvent, busy + {i}) && i < |q.commons| && q.commons[i].events != []
    ensures CommonsKnown(q) && Deletes(q, q.commons[i].front) && q.ev[q.commons[i].front].internal
    ensures BaseOk(Schedule(q, i), notifyEvent, busy) && QueuesOk(q)
  {
    assert FrontEvent(q.ev[q.commons[i].front]) && q.commons[i].front != notifyEvent;
    ScheduleOk(q, i, busy);
    RetimeEv(q, q.commons[i].front, q.ev[q.commons[i].events[0]].deadline, None);
    hide QueuesOk, FrontsOk, Retime;
    InternalFrame(q, Schedule(q, i), notifyEvent);
  }

  lemma RetimeShrinks(q: Queues, e: Id, deadline: Time, common: Option<nat>)
    requires Deletes(q, e) && CommonsKnown(q) && (common.Some? ==> common.value < |q.commons|)
    ensures QueuesShrink(q, Retime(q, e, deadline, common))
    ensures Retime(q, e, deadline, common).countActive <= q.countActive
  {
    UnscheduledKnown(q, e);
    hide Place, InsertAt;
    var u := Unscheduled(q, e);
    assert InsertTimeout(u, e, deadline, common).activequeues == u.activequeues;
    assert InsertTimeout(u, e, deadline, common).countActive == u.countActive;
    UnscheduledShrinks(q, e);
    hide Unscheduled;
  }

  lemma UnscheduledShrinks(q: Queues, e: Id)
    requires Deletes(q, e)
    ensures QueuesShrink(q, Unscheduled(q, e))
    ensures Unscheduled(q, e).countActive <= q.countActive
  {
    RemoveThins(q.activequeues[q.ev[e].pri], e);
    hide Thinned, Remove;
  }

  /** A common timeout does not touch the heap, except to take the event itself out. */
  lemma RetimeCommonLater(q: Queues, e: Id, deadline: Time, c: nat)
    requires QueuesOk(q) && Deletes(q, e) && CommonsKnown(q) && c < |q.commons|
    ensures NoEarlier(q, Retime(q, e, deadline, Some(c)))
  {
    RetimeHeap(q, e, deadline, Some(c));
    RetimeEv(q, e, deadline, Some(c));
    HeapKnown(q);
    hide QueuesOk, Retime;
  }

  lemma RetimeHeapLater(q: Queues, e: Id, deadline: Time, top: Id)
    requires QueuesOk(q) && Deletes(q, e) && CommonsKnown(q)
    requires var q' := Retime(q, e, deadline, None); IsTop(q'.ev, q'.timeheap, top) && top != e
    ensures NoEarlier(q, Retime(q, e, deadline, None))
  {
    RetimeHeap(q, e, deadline, None);
    RetimeEv(q, e, deadline, None);
    HeapKnown(q);
    hide QueuesOk, Retime;
    NotTop(q, Retime(q, e, deadline, None), e, top);
  }

  lemma NoEarlierTrans(a: Queues, b: Queues, c: Queues)
    requires NoEarlier(a, b) && NoEarlier(b, c)
    ensures NoEarlier(a, c)
  {
    forall e | e in c.timeheap
      ensures e in c.ev && exists x :: x in a.timeheap && x in a.ev && a.ev[x].deadline <= c.ev[e].deadline
    {
      var y :| y in b.timeheap && y in b.ev && b.ev[y].deadline <= c.ev[e].deadline;
    }
  }

  lemma QueuesShrinkTrans(a: Queues, b: Queues, c: Queues)
    requires QueuesShrink(a, b) && QueuesShrink(b, c)
    ensures QueuesShrink(a, c)
  {
  }

  /** `min_heap_top`, of a heap that is not empty. */
  method HeapTop(q: Queues) returns (top: Id)
    requires QueuesOk(q) && q.timeheap != {}
    ensures IsTop(q.ev, q.timeheap, top)
  {
    HeapKnown(q);
    MinExists(q.ev, q.timeheap);
    top :| IsTop(q.ev, q.timeheap, top);
  }

  /** Of the user events, only `e` has changed, and it is now `r`. */
  ghost predicate UserChange(ev0: map<Id, Event>, ev: map<Id, Event>, e: Id, r: Event) {
    ev.Keys == ev0.Keys && forall x :: x in ev && !ev0[x].internal ==> ev[x] == if x == e then r else ev0[x]
  }

  ghost predicate UsersKept(ev0: map<Id, Event>, ev: map<Id, Event>) {
    ev.Keys == ev0.Keys && forall x :: x in ev && !ev0[x].internal ==> ev[x] == ev0[x]
  }

  /** No event has become active, and internal ones are watched as before. */
  ghost predicate Calm(ev0: map<Id, Event>, ev: map<Id, Event>) {
    && ev.Keys == ev0.Keys && (forall x :: x in ev && ev[x].active ==> ev0[x].active)
    && forall x :: x in ev && ev0[x].internal ==> ev[x].internal && ev[x].inserted == ev0[x].inserted
  }

  lemma CalmTwice(ev0: map<Id, Event>, ev1: map<Id, Event>, ev2: map<Id, Event>)
    requires Calm(ev0, ev1) && Calm(ev1, ev2)
    ensures Calm(ev0, ev2)
  {
  }

  /** The same, except that `e` may no longer be watched. */
  ghost predicate CalmBut(ev0: map<Id, Event>, ev: map<Id, Event>, e: Id) {
    && ev.Keys == ev0.Keys && (forall x :: x in ev && ev[x].active ==> ev0[x].active)
    && forall x :: x in ev && ev0[x].internal ==>
         ev[x].internal && (ev[x].inserted == ev0[x].inserted || (x == e && !ev[x].inserted))
  }

  lemma CalmIsCalmBut(ev0: map<Id, Event>, ev: map<Id, Event>, e: Id)
    requires Calm(ev0, ev)
    ensures CalmBut(ev0, ev, e)
  {
  }

  lemma ScheduleUsers(q: Queues, i: nat)
    requires i < |q.commons| && q.commons[i].events != [] && CommonsKnown(q) && Deletes(q, q.commons[i].front)
    requires q.ev[q.commons[i].front].internal
    ensures UsersKept(q.ev, Schedule(q, i).ev) && Calm(q.ev, Schedule(q, i).ev)
  {
    RetimeEv(q, q.commons[i].front, q.ev[q.commons[i].events[0]].deadline, None);
    hide Retime;
  }

  lemma RetimeUsers(q: Queues, e: Id, deadline: Time, common: Option<nat>)
    requires Deletes(q, e) && CommonsKnown(q) && (common.Some? ==> common.value < |q.commons|)
    ensures UserChange(q.ev, Retime(q, e, deadline, common).ev, e, Timed(q.ev[e], deadline, common))
    ensures Calm(q.ev, Retime(q, e, deadline, common).ev)
  {
    RetimeEv(q, e, deadline, common);
    hide Retime;
  }

  lemma UserChangeKept(ev0: map<Id, Event>, ev1: map<Id, Event>, ev2: map<Id, Event>, e: Id, r: Event)
    requires UserChange(ev0, ev1, e, r) && UsersKept(ev1, ev2) && e in ev0 && !r.internal
    ensures UserChange(ev0, ev2, e, r)
  {
    forall x | x in ev2 && !ev0[x].internal ensures ev2[x] == ev1[x] {
      assert !ev1[x].internal;
    }
  }

  /** The nested `event_add_internal` for the front event of list `i`. */
  method ScheduleFront(q0: Queues, i: nat, ghost notifyEvent: Id, ghost busy: set<nat>)
    returns (q: Queues, notify: bool)
    requires BaseOk(q0, notifyEvent, busy + {i}) && i < |q0.commons| && q0.commons[i].events != []
    ensures BaseOk(q, notifyEvent, busy) && QueuesShrink(q0, q)
            && q.countActive <= q0.countActive
    ensures notify || NoEarlier(q0, q)
    ensures UsersKept(q0.ev, q.ev) && Calm(q0.ev, q.ev)
  {
    hide QueuesOk, FrontsOk, Retime, QueuesShrink, InternalOk, UsersKept, NoEarlier, Calm;
    var front := q0.commons[i].front;
    ScheduleBase(q0, i, notifyEvent, busy);
    ScheduleUsers(q0, i);
    var deadline := q0.ev[q0.commons[i].events[0]].deadline;
    RetimeShrinks(q0, front, deadline, None);
    RetimeHeap(q0, front, deadline, None);
    q := Schedule(q0, i);
    var top := HeapTop(q);
    notify := top == front;
    if !notify { RetimeHeapLater(q0, front, deadline, top); }
  }

  /** The timeout part of `event_add_internal`; `notify` asks for the loop thread to be woken. */
  method AddTimeout(q0: Queues, e: Id, deadline: Time, common: Option<nat>, ghost notifyEvent: Id, ghost busy: set<nat>)
    returns (q: Queues, notify: bool)
    requires BaseOk(q0, notifyEvent, busy) && e in q0.ev && !q0.ev[e].internal
    requires common.Some? ==> common.value < |q0.commons|
    ensures BaseOk(q, notifyEvent, busy) && QueuesShrink(q0, q)
            && q.countActive <= q0.countActive
    ensures notify || NoEarlier(q0, q)
    ensures UserChange(q0.ev, q.ev, e, Timed(q0.ev[e], deadline, common)) && Calm(q0.ev, q.ev)
  {
    hide QueuesOk, FrontsOk, Retime, QueuesShrink, InternalOk, UsersKept, UserChange, NoEarlier, Calm;
    RetimeBase(q0, e, deadline, common, notifyEvent, busy);
    RetimeUsers(q0, e, deadline, common);
    RetimeShrinks(q0, e, deadline, common);
    RetimeHeap(q0, e, deadline, common);
    q := Retime(q0, e, deadline, common);
    notify := false;
    if common.Some? {
      RetimeCommonLater(q0, e, deadline, common.value);
      if Heads(q, e, common) {
        ghost var q1 := q;
        q, notify := ScheduleFront(q, common.value, notifyEvent, busy);
        UserChangeKept(q0.ev, q1.ev, q.ev, e, Timed(q0.ev[e], deadline, common));
        QueuesShrinkTrans(q0, q1, q);
        CalmTwice(q0.ev, q1.ev, q.ev);
        if !notify { NoEarlierTrans(q0, q1, q); }
      }
    } else {
      var top := HeapTop(q);
      notify := top == e;
      if !notify { RetimeHeapLater(q0, e, deadline, top); }
    }
    if q0.ev[e].timeout {
      // The event was perhaps at the top of the heap already.
      var wasTop: bool := *;
      notify := notify || wasTop;
    }
  }

  predicate Known(tv: Option<(Time, Option<nat>)>, cs: seq<CommonList>) {
    tv.Some? && tv.value.1.Some? ==> tv.value.1.value < |cs|
  }

  /** Whether `event_add_internal` tells the fd map of the event. */
  predicate Inserts(r: Event) {
    r.io && !r.inserted && !r.active
  }

  /** What `event_add` makes of an event. */
  function Added(r: Event, tv: Option<(Time, Option<nat>)>, now: Time): Event {
    var r1 := r.(inserted := r.inserted || Inserts(r));
    if tv.Some? then Timed(r1, now + tv.value.0, tv.value.1) else r1
  }

  lemma InsertUsers(q: Queues, e: Id)
    requires e in q.ev
    ensures UserChange(q.ev, InsertInserted(q, e).ev, e, q.ev[e].(inserted := true))
            && UserChange(q.ev, q.ev, e, q.ev[e])
    ensures (!q.ev[e].internal ==> Calm(q.ev, InsertInserted(q, e).ev)) && Calm(q.ev, q.ev)
  {
  }

  lemma UserChangeTwice(ev0: map<Id, Event>, ev1: map<Id, Event>, ev2: map<Id, Event>, e: Id, r1: Event, r2: Event)
    requires e in ev0 && UserChange(ev0, ev1, e, r1) && !r1.internal && UserChange(ev1, ev2, e, r2)
    ensures UserChange(ev0, ev2, e, r2)
  {
    forall x | x in ev2 && !ev0[x].internal ensures ev2[x] == if x == e then r2 else ev0[x] {
      assert !ev1[x].internal;
    }
  }

  lemma InsertLater(q: Queues, e: Id)
    requires QueuesOk(q) && e in q.ev
    ensures NoEarlier(q, q) && NoEarlier(q, InsertInserted(q, e))
  {
    HeapKnown(q);
    hide QueuesOk;
  }

  /** `event_add_internal`, apart from the fd map. */
  method AddEvent(q0: Queues, e: Id, tv: Option<(Time, Option<nat>)>, now: Time, ghost notifyEvent: Id,
                  ghost busy: set<nat>)
    returns (q: Queues, notify: bool)
    requires BaseOk(q0, notifyEvent, busy) && e in q0.ev && !q0.ev[e].internal
    requires Known(tv, q0.commons)
    ensures BaseOk(q, notifyEvent, busy) && QueuesShrink(q0, q)
            && q.countActive <= q0.countActive
    ensures notify || NoEarlier(q0, q)
    ensures UserChange(q0.ev, q.ev, e, Added(q0.ev[e], tv, now)) && Calm(q0.ev, q.ev)
  {
    hide QueuesOk, FrontsOk, InternalOk, UserChange, NoEarlier, Calm;
    q, notify := q0, false;
    InsertLater(q0, e);
    InsertUsers(q0, e);
    if Inserts(q0.ev[e]) {
      InsertBase(q0, e, notifyEvent, busy);
      q := InsertInserted(q0, e);
    }
    if tv.Some? {
      ghost var q1 := q;
      q, notify := AddTimeout(q, e, now + tv.value.0, tv.value.1, notifyEvent, busy);
      UserChangeTwice(q0.ev, q1.ev, q.ev, e, q1.ev[e], Timed(q1.ev[e], now + tv.value.0, tv.value.1));
      CalmTwice(q0.ev, q1.ev, q.ev);
      if !notify { NoEarlierTrans(q0, q1, q); }
    }
  }

  lemma ActivateQueues(q: Queues, e: Id, byTimeout: bool)
    requires Deletes(q, e)
    ensures var qs := Activate(q, e, byTimeout).activequeues;
            |qs| == |q.activequeues| && forall p :: 0 <= p < |qs| && p != q.ev[e].pri ==> qs[p] == q.activequeues[p]
    ensures var p := q.ev[e].pri;
            Activate(q, e, byTimeout).activequeues ==
            if q.ev[e].active then q.activequeues else q.activequeues[p := q.activequeues[p] + [e]]
    ensures q.ev[e].active ==> Activate(q, e, byTimeout).countActive == q.countActive
  {
  }

  lemma ActiveCounted(q: Queues, e: Id)
    requires QueuesOk(q) && e in q.ev && q.ev[e].active
    ensures q.countActive > 0
  {
    assert e in q.activequeues[q.ev[e].pri];
    SumLenZero(q.activequeues);
  }

  // ------------------------------------------------------------ the base

  /** Everything there is to a base at one moment. */
  datatype State = State(
    q: Queues, deferred: nat, phase: Phase, isNotifyPending: bool, notifyReadable: bool, fdChanged: bool,
    tvCache: Option<Time>, ioTimeout: map<Id, (Time, Option<nat>)>,
    eventBreak: bool, eventContinue: bool, runningPriority: int, notifyEvent: Id, cacheTime: bool)

  /** `gettime`: the cached time, if there is one. */
  function GetTime(tvCache: Option<Time>, now: Time): Time {
    if tvCache.Some? then tvCache.value else now
  }

  /** The caller is not the loop thread, and there is one. */
  predicate NeedNotify(ph: Phase, inLoop: bool) {
    !ph.Outside? && !inLoop
  }

  /** Who may call in: the loop thread from inside a callback, any other thread when the lock is free. */
  predicate MayCall(ph: Phase, inLoop: bool) {
    LockFree(ph) && (inLoop ==> ph.Running? || ph.RunningDeferred?)
  }

  predicate UserEvent(q: Queues, e: Id) {
    e in q.ev && !q.ev[e].internal
  }

  /** The loop thread has been woken, if it has to be: one write for any number of wake-ups. */
  function Woken(s: State, inLoop: bool): (r: State)
    ensures r.q == s.q && r.phase == s.phase && r.fdChanged == s.fdChanged
    ensures r.ioTimeout == s.ioTimeout && r.eventBreak == s.eventBreak
  {
    if NeedNotify(s.phase, inLoop) && !s.isNotifyPending then s.(isNotifyPending := true, notifyReadable := true) else s
  }

  /** The loop thread is not waiting for anything that has come already. */
  ghost predicate Idle(s: State, until: Option<Time>) {
    s.q.countActive == 0 && s.deferred == 0 && !s.eventBreak && !s.fdChanged && WakesInTime(s.q, until)
  }

  /** No lost wake-up: while the loop thread is blocked, either nothing has come up that it should see to before its
      wait ends, or the wake-up fd is readable. */
  ghost predicate Awake(s: State) {
    s.phase.Blocked? && !s.phase.poll ==> s.notifyReadable || Idle(s, Due(s.phase.until, s.phase.late))
  }

  /** A wake-up that is pending can be read, or the drain callback has just read it. */
  predicate NotifyOk(s: State) {
    s.isNotifyPending ==> s.notifyReadable || (s.phase.Running? && s.phase.cb.DrainedCallback?)
  }

  /** While the loop thread waits or is away, or if the base was told so, the time is not cached, and then no sleep
      begins late. */
  predicate CacheOk(s: State) {
    && (s.phase.Outside? || s.phase.Blocked? || !s.cacheTime ==> s.tvCache.None?)
    && (s.phase.Blocked? && !s.cacheTime ==> s.phase.late == 0)
  }

  ghost predicate StateOk(s: State) {
    && BaseOk(s.q, s.notifyEvent, Busy(s.phase))
    && PriorityOk(s.phase, s.q.activequeues, s.runningPriority, s.eventContinue)
    && NotifyOk(s) && Awake(s) && CacheOk(s)
  }

  class EventBase {
    var q: Queues
    /** Length of the queue of deferred callbacks. */
    var deferred: nat
    var phase: Phase
    var isNotifyPending: bool
    /** The wake-up fd has something to read. */
    var notifyReadable: bool
    /** An fd was changed since the backend last applied changes. */
    ghost var fdChanged: bool
    /** `tv_cache`: the time after the last wait, kept while callbacks run unless the base was told not to. */
    var tvCache: Option<Time>
    const cacheTime: bool
    /** `ev_io_timeout` of the persistent events. */
    var ioTimeout: map<Id, (Time, Option<nat>)>
    var eventBreak: bool
    var eventContinue: bool
    var runningPriority: int
    const notifyEvent: Id

    ghost function Now(): State
      reads this
    {
      State(q, deferred, phase, isNotifyPending, notifyReadable, fdChanged, tvCache, ioTimeout,
            eventBreak, eventContinue, runningPriority, notifyEvent, cacheTime)
    }

    ghost predicate Valid()
      reads this
    {
      StateOk(Now())
    }

    constructor (q: Queues, notifyEvent: Id, cacheTime: bool)
      requires Fresh(q, notifyEvent)
      ensures Valid() && Now() == NewState(q, notifyEvent, cacheTime)
    {
      FreshOk(q, notifyEvent);
      hide BaseOk;
      this.q, this.notifyEvent, this.cacheTime := q, notifyEvent, cacheTime;
      tvCache, ioTimeout := None, map[];
      deferred, phase, runningPriority := 0, Outside, -1;
      isNotifyPending, notifyReadable, fdChanged, eventBreak, eventContinue := false, false, false, false, false;
    }

    /** `evthread_notify_base`, where `EVBASE_NEED_NOTIFY` holds. */
    method Notify(inLoop: bool)
      modifies this`isNotifyPending, this`notifyReadable
      ensures Now() == Woken(old(Now()), inLoop)
      ensures NeedNotify(phase, inLoop) ==> isNotifyPending
      ensures notifyReadable == (old(notifyReadable) || (isNotifyPending && !old(isNotifyPending)))
      ensures !NeedNotify(phase, inLoop) || old(isNotifyPending) ==> isNotifyPending == old(isNotifyPending)
    {
      if NeedNotify(phase, inLoop) && !isNotifyPending {
        isNotifyPending := true;
        notifyReadable := true;
      }
    }

    /** The end of a call: the queues have changed, and the loop thread is woken if `wake` says so. */
    method Finish(q': Queues, again: map<Id, (Time, Option<nat>)>, ghost told: bool, cont: bool, wake: bool,
                  inLoop: bool)
      modifies this
      ensures Now() == Finished(old(Now()), q', again, told, cont, wake, inLoop)
    {
      hide Woken;
      q, ioTimeout, eventContinue := q', again, cont;
      fdChanged := told;
      if wake { Notify(inLoop); }
    }

    /** `event_del`.  `ioRes` is what the fd map answers; 1 means that the backend was told. */
    method EventDel(e: Id, ioRes: int, inLoop: bool)
      requires Valid() && MayCall(phase, inLoop) && UserEvent(q, e)
      modifies this
      ensures Valid() && DelDid(old(Now()), Now(), e, ioRes, inLoop)
    {
      hide StateOk, Del, DelDid, Finished;
      DelFinished(Now(), e, ioRes, inLoop);
      var told := q.ev[e].inserted && ioRes == 1;
      Finish(Del(q, e), ioTimeout, if told then true else fdChanged, eventContinue, told, inLoop);
    }

    /** `event_active`. */
    method EventActive(e: Id, inLoop: bool)
      requires Valid() && MayCall(phase, inLoop) && UserEvent(q, e)
      modifies this
      ensures Valid() && ActiveDid(old(Now()), Now(), e, inLoop)
    {
      hide StateOk, Activate, ActiveDid, Finished;
      ActiveFinished(Now(), e, inLoop);
      var wake := !q.ev[e].active;
      var cont := if wake && q.ev[e].pri < runningPriority then true else eventContinue;
      Finish(Activate(q, e, false), ioTimeout, fdChanged, cont, wake, inLoop);
    }

    /** `event_deferred_cb_schedule` of a callback that is not queued yet. */
    method DeferSchedule(inLoop: bool)
      requires Valid() && MayCall(phase, inLoop)
      modifies this
      ensures Valid() && Now() == Woken(old(Now()).(deferred := old(deferred) + 1), inLoop)
    {
      hide BaseOk, StateOk, Woken;
      ghost var s := Now();
      OkBase(s);
      deferred := deferred + 1;
      WokenKeeps(s, Now(), inLoop);
      Notify(inLoop);
    }

    /** `event_base_loopbreak`. */
    method LoopBreak(inLoop: bool)
      requires Valid() && MayCall(phase, inLoop)
      modifies this
      ensures Valid() && Now() == Woken(old(Now()).(eventBreak := true), inLoop)
    {
      hide BaseOk, StateOk, Woken;
      ghost var s := Now();
      OkBase(s);
      eventBreak := true;
      WokenKeeps(s, Now(), inLoop);
      Notify(inLoop);
    }

    /** `event_add`: `tv` is the time from now, and the common timeout it is marked with. */
    method EventAdd(e: Id, tv: Option<(Time, Option<nat>)>, now: Time, ioRes: int, inLoop: bool) returns (r: int)
      requires Valid() && MayCall(phase, inLoop) && UserEvent(q, e) && Known(tv, q.commons)
      modifies this
      ensures Valid() && AddDid(old(Now()), Now(), e, tv, now, ioRes, inLoop)
      ensures r == if Inserts(old(q.ev)[e]) && ioRes == -1 then -1 else 0
    {
      hide BaseOk, StateOk, UserChange, QueuesShrink, NoEarlier, Calm, Added, Busy, AgainAfter, AddDid, Finished;
      ghost var s := Now();
      OkBase(s);
      if Inserts(q.ev[e]) && ioRes == -1 {
        AddRefused(s, e, tv, now, ioRes, inLoop);
        return -1;
      }
      var q', notify := AddEvent(q, e, tv, GetTime(tvCache, now), notifyEvent, Busy(phase));
      var told := Inserts(q.ev[e]) && ioRes == 1;
      if told { notify := true; }
      AddFinished(s, q', e, tv, now, ioRes, notify, inLoop);
      var again := AgainAfter(ioTimeout, q.ev[e], e, tv);
      Finish(q', again, if told then true else fdChanged, eventContinue, notify, inLoop);
      r := 0;
    }

    /** The head of `event_base_loop`; only one thread can be in it. */
    method StartLoop() returns (r: int)
      requires Valid() && LockFree(phase)
      modifies this
      ensures Valid() && r == if old(phase).Outside? then 0 else -1
      ensures Now() == if r == 0 then old(Now()).(phase := Top, tvCache := None, eventBreak := false) else old(Now())
    {
      hide BaseOk;
      if !phase.Outside? { return -1; }
      tvCache := None;
      eventBreak := false;
      phase := Top;
      r := 0;
    }

    /** The flags of the loop end it. */
    method LeaveLoop()
      requires Valid() && phase.Top?
      modifies this
      ensures Valid() && Now() == old(Now()).(phase := Outside, tvCache := None)
    {
      hide BaseOk;
      tvCache := None;
      phase := Outside;
    }

    /** From the top of the loop into the backend's wait.  The loop ends with 1 exactly when no user event is on
        any queue, none is active and no callback is deferred.  How long to wait is worked out from the cached time,
        but the wait begins at `now`. */
    method PollStart(now: Time, nonblock: bool) returns (r: int)
      requires Valid() && phase.Top?
      modifies this
      ensures Valid() && PollDid(old(Now()), Now(), now, nonblock)
      ensures phase == Outside ==> r == if old(eventBreak) then 0 else 1
    {
      hide BaseOk, StateOk, NothingLeft, HasDue, Until, Waits, WakesInTime, PollDid, Polled, Msec, NextWait;
      ghost var s := Now();
      OkBase(s);
      NothingLeftCounts(q, deferred, notifyEvent);
      BaseCounts(q, notifyEvent, {});
      if eventBreak {
        PollEnds(s, now, nonblock);
        Enter(Outside, fdChanged);
        return 0;
      }
      var seen := GetTime(tvCache, now);
      var wait, poll := None, true;
      if q.countActive == 0 && deferred == 0 && !nonblock {
        wait, poll := TimeoutNext(q, seen, notifyEvent);
        NextUntil(q, seen, now, wait, poll);
      }
      if q.count == 0 && q.countActive + deferred == 0 {
        PollEnds(s, now, nonblock);
        Enter(Outside, fdChanged);
        return 1;
      }
      var until := if wait.None? then None else Some(now + 1000 * wait.value);
      PollSleeps(s, now, nonblock, until, poll);
      Enter(Blocked(until, poll, now - seen), false);
      r := 0;
    }

    /** The loop thread leaves the top of the loop. */
    method Enter(ph: Phase, ghost changed: bool)
      modifies this
      ensures Now() == Polled(old(Now()), ph, changed)
    {
      tvCache, eventContinue, phase := None, false, ph;
      fdChanged := changed;
    }

    /** The backend fails, and the loop ends with -1. */
    method PollFails() returns (r: int)
      requires Valid() && phase.Blocked?
      modifies this
      ensures Valid() && r == -1 && Now() == old(Now()).(phase := Outside)
    {
      hide BaseOk;
      phase := Outside;
      r := -1;
    }

    /** The wait is over: the backend reports `ready` events, then the heap is looked at.  A backend that was
        interrupted, or has more to report than it has room for, leaves events out; the wake-up fd may be among them. */
    method PollEnd(ready: seq<Id>, now: Time)
      requires Valid() && phase.Blocked?
      requires Reportable(q, ready)
      modifies this
      ensures Valid() && PollEndDid(old(Now()), Now(), ready, now)
    {
      hide BaseOk, HeapFired, Orderly;
      ReportedDue(q.ev, ready, now);
      var q1 := ActivateReady(q, ready, notifyEvent);
      var q2 := ProcessTimeouts(q1, now, notifyEvent);
      NotifyTaken(q.ev, q1, q2, ready, now, notifyEvent);
      OrderlyMore(q, q1, q2, DueInHeap(q.ev, now));
      q := q2;
      tvCache := if cacheTime then Some(now) else None;
      phase := if q.countActive + deferred > 0 then Choosing(0) else Top;
    }

    /** The loop of `event_process_active` looks at one queue. */
    method Choose()
      requires Valid() && phase.Choosing?
      modifies this
      ensures Valid() && Now() == Chosen(old(Now()))
    {
      hide BaseOk;
      var p := phase.p;
      if p == |q.activequeues| {
        phase := Deferring(0);
      } else if q.activequeues[p] != [] {
        runningPriority := p;
        phase := InQueue(p, 0);
      } else {
        phase := Choosing(p + 1);
      }
    }

    /** The loop of `event_process_active_single_queue` takes the first event of its queue.  No active event has
        a lower priority number than the one that is taken.  A persistent event with a timeout is set to time out
        again. */
    method Take(now: Time, ioRes: int) returns (e: Id)
      requires Valid() && phase.InQueue? && q.activequeues[phase.p] != []
      modifies this
      ensures Valid() && TakeDid(old(Now()), Now(), e, ioRes, now)
    {
      hide BaseOk, UserChange, Taken, NextTimeout, CalmBut;
      var p := phase.p;
      e := q.activequeues[p][0];
      HeadActive(q, p, notifyEvent);
      var front := FindFront(q.commons, e);
      var again := NextTimeout(q.ev[e], e, ioTimeout, GetTime(tvCache, now), |q.commons|);
      if q.ev[e].persist && !q.ev[e].internal && again.Some? && Inserts(q.ev[e].(active := false)) && ioRes == 1 {
        fdChanged := true;
      }
      var count := phase.count + if q.ev[e].internal then 0 else 1;
      q := TakeEvent(q, e, front, again, ioRes, notifyEvent);
      phase := Running(p, count,
        if e == notifyEvent then DrainCallback else if front.Some? then FrontCallback(front.value) else UserCallback);
    }

    /** The queue is empty. */
    method QueueDone()
      requires Valid() && phase.InQueue? && q.activequeues[phase.p] == []
      modifies this
      ensures var next := if old(phase).count > 0 then Deferring(0) else Choosing(old(phase).p + 1);
              Valid() && Now() == old(Now()).(phase := next)
    {
      hide BaseOk;
      phase := if phase.count > 0 then Deferring(0) else Choosing(phase.p + 1);
    }

    /** A callback has returned.  An event of a better priority that it made active sends the loop back to the top. */
    method CallbackEnds()
      requires Valid() && phase.Running? && phase.cb.UserCallback?
      modifies this
      ensures Valid() && Now() == Returned(old(Now()))
    {
      hide BaseOk;
      if eventBreak {
        runningPriority := -1;
        phase := Top;
      } else if eventContinue {
        // Internal events have the best priority, so one of the user's has been counted.
        assert phase.count > 0;
        phase := Deferring(0);
      } else {
        phase := InQueue(phase.p, phase.count);
      }
    }

    /** `common_timeout_callback`, which takes the lock again. */
    method FrontCallbackRuns(now: Time)
      requires Valid() && phase.Running? && phase.cb.FrontCallback?
      modifies this
      ensures Valid() && phase == old(phase).(cb := UserCallback)
      ensures CallbackDid(old(Now()), Now(), now)
    {
      hide BaseOk, ListFired, Orderly;
      q := RunFront(q, phase.cb.i, GetTime(tvCache, now), notifyEvent);
      phase := phase.(cb := UserCallback);
    }

    /** The drain callback reads the wake-up fd, without the lock. */
    method DrainRead()
      requires Valid() && phase.Running? && phase.cb.DrainCallback?
      modifies this
      ensures Valid() && Now() == old(Now()).(notifyReadable := false, phase := old(phase).(cb := DrainedCallback))
    {
      hide BaseOk;
      notifyReadable := false;
      phase := phase.(cb := DrainedCallback);
    }

    /** Then it takes the lock; threads that called in between have not written to the fd. */
    method DrainClear()
      requires Valid() && phase.Running? && phase.cb.DrainedCallback?
      modifies this
      ensures Valid() && Now() == old(Now()).(isNotifyPending := false, phase := old(phase).(cb := UserCallback))
    {
      hide BaseOk;
      isNotifyPending := false;
      phase := phase.(cb := UserCallback);
    }

    /** The loop of `event_process_deferred_callbacks`: the next callback, if there is one. */
    method NextDeferred()
      requires Valid() && phase.Deferring?
      modifies this
      ensures Valid() && Now() == AfterDeferring(old(Now()))
    {
      hide BaseOk;
      if deferred == 0 {
        runningPriority := -1;
        phase := Top;
      } else {
        deferred := deferred - 1;
        phase := RunningDeferred(phase.n);
      }
    }

    /** A deferred callback has returned. */
    method DeferredEnds()
      requires Valid() && phase.RunningDeferred?
      modifies this
      ensures Valid() && Now() == AfterDeferred(old(Now()))
    {
      hide BaseOk;
      if eventBreak || phase.n + 1 == MAX_DEFERRED {
        runningPriority := -1;
        phase := Top;
      } else {
        phase := Deferring(phase.n + 1);
      }
    }

    /** One step; a step that is not possible is skipped. */
    method Perform(step: Step)
      requires Valid()
      modifies this
      ensures Valid() && Did(step, old(Now()), Now())
    {
      hide StateOk, AddDid, DelDid, ActiveDid, PollDid, PollEndDid, LoopDid, Woken;
      match step {
        case DoAdd(e, tv, now, ioRes, inLoop) =>
          if MayCall(phase, inLoop) && UserEvent(q, e) && Known(tv, q.commons) {
            var r := EventAdd(e, tv, now, ioRes, inLoop);
          }
        case DoDel(e, ioRes, inLoop) =>
          if MayCall(phase, inLoop) && UserEvent(q, e) { EventDel(e, ioRes, inLoop); }
        case DoActive(e, inLoop) =>
          if MayCall(phase, inLoop) && UserEvent(q, e) { EventActive(e, inLoop); }
        case DoDefer(inLoop) => if MayCall(phase, inLoop) { DeferSchedule(inLoop); }
        case DoBreak(inLoop) => if MayCall(phase, inLoop) { LoopBreak(inLoop); }
        case DoStart => if LockFree(phase) { var r := StartLoop(); }
        case DoLeave => if phase.Top? { LeaveLoop(); }
        case DoPollStart(now, nonblock) => if phase.Top? { var r := PollStart(now, nonblock); }
        case DoPollEnd(ready, now) => if phase.Blocked? && Reportable(q, ready) { PollEnd(ready, now); }
        case DoPollFails => if phase.Blocked? { var r := PollFails(); }
        case DoLoop(ioRes, now) => LoopStep(ioRes, now);
      }
    }

    method CallbackStep(now: Time)
      requires Valid() && phase.Running?
      modifies this
      ensures Valid() && CallbackDid(old(Now()), Now(), now)
    {
      hide StateOk, ListFired, Returned;
      match phase.cb {
        case UserCallback => CallbackEnds();
        case FrontCallback(_) => FrontCallbackRuns(now);
        case DrainCallback => DrainRead();
        case DrainedCallback => DrainClear();
      }
    }

    method QueueStep(ioRes: int, now: Time)
      requires Valid() && phase.InQueue?
      modifies this
      ensures Valid() && QueueDid(old(Now()), Now(), ioRes, now)
    {
      hide StateOk, TakeDid;
      OkPlace(Now());
      if q.activequeues[phase.p] == [] {
        QueueDone();
      } else {
        var e := Take(now, ioRes);
      }
    }

    /** The loop thread goes on from where it is, outside the wait. */
    method LoopStep(ioRes: int, now: Time)
      requires Valid()
      modifies this
      ensures Valid() && LoopDid(old(Now()), Now(), ioRes, now)
    {
      hide StateOk, Chosen, QueueDid, CallbackDid, AfterDeferring, AfterDeferred;
      OkPlace(Now());
      match phase {
        case Choosing(_) => Choose();
        case InQueue(_, _) => QueueStep(ioRes, now);
        case Running(_, _, _) => CallbackStep(now);
        case Deferring(_) => NextDeferred();
        case RunningDeferred(_) => DeferredEnds();
        case _ =>
      }
    }
  }

  // ------------------------------------------------------------ what the steps of the loop rest on

  /** `ev_io_timeout` after `event_add`. */
  function AgainAfter(was: map<Id, (Time, Option<nat>)>, r: Event, e: Id, tv: Option<(Time, Option<nat>)>)
    : map<Id, (Time, Option<nat>)>
  {
    if tv.Some? && r.persist then was[e := tv.value] else was
  }

  function AtTop(s: State): State {
    s.(runningPriority := -1, phase := Top)
  }

  /** One queue has been looked at. */
  function Chosen(s: State): (r: State)
    requires s.phase.Choosing? && s.phase.p <= |s.q.activequeues|
    ensures r.q == s.q && r.ioTimeout == s.ioTimeout && !r.phase.Blocked?
  {
    var p, qs := s.phase.p, s.q.activequeues;
    if p == |qs| then s.(phase := Deferring(0))
    else if qs[p] != [] then s.(phase := InQueue(p, 0), runningPriority := p)
    else s.(phase := Choosing(p + 1))
  }

  /** A callback has returned. */
  function Returned(s: State): (r: State)
    requires s.phase.Running?
    ensures r.q == s.q && r.ioTimeout == s.ioTimeout && !r.phase.Blocked?
  {
    if s.eventBreak then AtTop(s)
    else if s.eventContinue then s.(phase := Deferring(0))
    else s.(phase := InQueue(s.phase.p, s.phase.count))
  }

  /** The next deferred callback has been looked for. */
  function AfterDeferring(s: State): (r: State)
    requires s.phase.Deferring?
    ensures r.q == s.q && r.ioTimeout == s.ioTimeout && !r.phase.Blocked?
  {
    if s.deferred == 0 then AtTop(s) else s.(deferred := s.deferred - 1, phase := RunningDeferred(s.phase.n))
  }

  /** A deferred callback has returned. */
  function AfterDeferred(s: State): (r: State)
    requires s.phase.RunningDeferred?
    ensures r.q == s.q && r.ioTimeout == s.ioTimeout && !r.phase.Blocked?
  {
    if s.eventBreak || s.phase.n + 1 == MAX_DEFERRED then AtTop(s) else s.(phase := Deferring(s.phase.n + 1))
  }

  /** What a backend may report. */
  predicate Reportable(q: Queues, ready: seq<Id>) {
    forall k :: 0 <= k < |ready| ==> ready[k] in q.ev && q.ev[ready[k]].inserted
  }

  lemma OkPlace(s: State)
    requires StateOk(s)
    ensures s.phase.InQueue? ==> s.phase.p < |s.q.activequeues|
    ensures s.phase.Choosing? ==> s.phase.p <= |s.q.activequeues|
  {
    hide BaseOk;
  }

  lemma OkBase(s: State)
    requires StateOk(s)
    ensures BaseOk(s.q, s.notifyEvent, Busy(s.phase))
  {
  }

  /** The state at the end of a call. */
  function Finished(s: State, q: Queues, again: map<Id, (Time, Option<nat>)>, told: bool, cont: bool, wake: bool,
                    inLoop: bool)
    : State
  {
    var s1 := s.(q := q, ioTimeout := again, fdChanged := told, eventContinue := cont);
    if wake then Woken(s1, inLoop) else s1
  }

  lemma DelFinished(s: State, e: Id, ioRes: int, inLoop: bool)
    requires StateOk(s) && MayCall(s.phase, inLoop) && UserEvent(s.q, e)
    ensures Deletes(s.q, e)
    ensures var told := s.q.ev[e].inserted && ioRes == 1;
            var changed := if told then true else s.fdChanged;
            var s' := Finished(s, Del(s.q, e), s.ioTimeout, changed, s.eventContinue, told, inLoop);
            StateOk(s') && DelDid(s, s', e, ioRes, inLoop)
  {
    hide BaseOk, StateOk, Del, Woken, QueuesShrink, NoEarlier, Busy, Cleared, PriorityOk;
    OkBase(s);
    DelBase(s.q, e, s.notifyEvent, Busy(s.phase));
    DelShrinks(s.q, e);
    DelEv(s.q, e);
    if s.q.ev[e].inserted && ioRes == 1 {
      WokenKeeps(s, s.(q := Del(s.q, e), fdChanged := true), inLoop);
    } else {
      QuietKeeps(s, s.(q := Del(s.q, e)));
    }
  }

  lemma ActiveFinished(s: State, e: Id, inLoop: bool)
    requires StateOk(s) && MayCall(s.phase, inLoop) && UserEvent(s.q, e)
    ensures Deletes(s.q, e)
    ensures var wake := !s.q.ev[e].active;
            var cont := if wake && s.q.ev[e].pri < s.runningPriority then true else s.eventContinue;
            var s' := Finished(s, Activate(s.q, e, false), s.ioTimeout, s.fdChanged, cont, wake, inLoop);
            StateOk(s') && ActiveDid(s, s', e, inLoop)
  {
    hide BaseOk, StateOk, Activate, Woken, Busy, Activated, PriorityOk;
    OkBase(s);
    ActivateBase(s.q, e, false, s.notifyEvent, Busy(s.phase));
    ActivateEv(s.q, e, false);
    ActivateQueues(s.q, e, false);
    ActivateCommons(s.q, e, false);
    BaseActive(s.q, e, s.notifyEvent, Busy(s.phase));
    var cont := if !s.q.ev[e].active && s.q.ev[e].pri < s.runningPriority then true else s.eventContinue;
    var quiet := s.(q := Activate(s.q, e, false), eventContinue := cont);
    if s.q.ev[e].active {
      SamePlaces(s, quiet);
    } else {
      ActivePriority(s, quiet, e);
      WokenKeeps(s, quiet, inLoop);
    }
  }

  lemma AddRefused(s: State, e: Id, tv: Option<(Time, Option<nat>)>, now: Time, ioRes: int, inLoop: bool)
    requires e in s.q.ev && Inserts(s.q.ev[e]) && ioRes == -1
    ensures AddDid(s, s, e, tv, now, ioRes, inLoop)
  {
  }

  lemma AddFinished(s: State, q: Queues, e: Id, tv: Option<(Time, Option<nat>)>, now: Time, ioRes: int,
                    wake: bool, inLoop: bool)
    requires StateOk(s) && MayCall(s.phase, inLoop) && UserEvent(s.q, e) && BaseOk(q, s.notifyEvent, Busy(s.phase))
    requires QueuesShrink(s.q, q) && q.countActive <= s.q.countActive
    requires UserChange(s.q.ev, q.ev, e, Added(s.q.ev[e], tv, GetTime(s.tvCache, now))) && (wake || NoEarlier(s.q, q))
    requires Calm(s.q.ev, q.ev)
    requires !(Inserts(s.q.ev[e]) && ioRes == -1) && (Inserts(s.q.ev[e]) && ioRes == 1 ==> wake)
    ensures var changed := if Inserts(s.q.ev[e]) && ioRes == 1 then true else s.fdChanged;
            var s' := Finished(s, q, AgainAfter(s.ioTimeout, s.q.ev[e], e, tv), changed, s.eventContinue, wake, inLoop);
            StateOk(s') && AddDid(s, s', e, tv, now, ioRes, inLoop)
  {
    hide BaseOk, StateOk, UserChange, QueuesShrink, NoEarlier, Calm, Added, Busy, PriorityOk, AgainAfter, Woken;
    var changed := if Inserts(s.q.ev[e]) && ioRes == 1 then true else s.fdChanged;
    var quiet := s.(q := q, ioTimeout := AgainAfter(s.ioTimeout, s.q.ev[e], e, tv), fdChanged := changed);
    if wake { WokenKeeps(s, quiet, inLoop); } else { QuietKeeps(s, quiet); }
  }

  /** What a call leaves to the loop thread. */
  predicate SameLoop(s: State, s': State) {
    && s'.phase == s.phase && s'.isNotifyPending == s.isNotifyPending && s'.notifyReadable == s.notifyReadable
    && s'.tvCache == s.tvCache && s'.runningPriority == s.runningPriority
    && s'.notifyEvent == s.notifyEvent && s'.cacheTime == s.cacheTime
  }

  /** A call that takes events off the queues, or sets none to an earlier time than there was, need not wake anybody. */
  lemma QuietKeeps(s: State, s': State)
    requires StateOk(s) && SameLoop(s, s') && BaseOk(s'.q, s.notifyEvent, Busy(s.phase))
    requires s'.deferred == s.deferred && s'.fdChanged == s.fdChanged
             && s'.eventBreak == s.eventBreak && s'.eventContinue == s.eventContinue
    requires QueuesShrink(s.q, s'.q) && s'.q.countActive <= s.q.countActive
             && NoEarlier(s.q, s'.q)
    ensures StateOk(s')
  {
    BaseCounts(s'.q, s.notifyEvent, Busy(s.phase));
    hide BaseOk;
    if s.phase.Blocked? && !s.phase.poll && !s.notifyReadable {
      StillInTime(s.q, s'.q, Due(s.phase.until, s.phase.late));
    }
  }

  lemma SamePlaces(s: State, s': State)
    requires StateOk(s) && SameLoop(s, s') && BaseOk(s'.q, s.notifyEvent, Busy(s.phase))
    requires s'.eventContinue == s.eventContinue
    requires s'.q.activequeues == s.q.activequeues && s.q.countActive > 0
    ensures StateOk(s')
  {
    hide BaseOk;
  }

  /** A call that does anything else wakes the loop thread, which then will see to it. */
  lemma WokenKeeps(s: State, s': State, inLoop: bool)
    requires StateOk(s) && MayCall(s.phase, inLoop) && SameLoop(s, s') && BaseOk(s'.q, s.notifyEvent, Busy(s.phase))
    requires PriorityOk(s.phase, s'.q.activequeues, s.runningPriority, s'.eventContinue)
             || (s'.eventContinue == s.eventContinue && QueuesShrink(s.q, s'.q))
    ensures StateOk(Woken(s', inLoop))
  {
    hide BaseOk;
  }

  /** An event that becomes active ends the run of a queue that comes after its own. */
  lemma ActivePriority(s: State, s': State, e: Id)
    requires StateOk(s) && LockFree(s.phase) && e in s.q.ev && s.q.ev[e].pri < |s.q.activequeues|
    requires var p := s.q.ev[e].pri; s'.q.activequeues == s.q.activequeues[p := s.q.activequeues[p] + [e]]
    requires s'.eventContinue == (s.eventContinue || s.q.ev[e].pri < s.runningPriority)
    ensures PriorityOk(s.phase, s'.q.activequeues, s.runningPriority, s'.eventContinue)
  {
    hide BaseOk;
  }

  lemma NextUntil(q: Queues, seen: Time, now: Time, wait: Option<nat>, poll: bool)
    requires !poll ==> NextWait(q, seen, wait)
    ensures !poll ==> Until(q, seen, now, if wait.None? then None else Some(now + 1000 * wait.value))
  {
  }

  /** A sleep that begins late ends that much later. */
  lemma UntilInTime(q: Queues, seen: Time, now: Time, until: Option<Time>)
    requires Until(q, seen, now, until)
    ensures WakesInTime(q, Due(until, now - seen))
  {
    if until.Some? {
      var top :| IsTop(q.ev, q.timeheap, top) && seen < q.ev[top].deadline
        && until.value == SleepEnds(q.ev[top].deadline, seen, now);
      SleepBound(q.ev[top].deadline, seen, now);
    }
  }

  /** The state in which the loop thread has left the top of the loop. */
  function Polled(s: State, ph: Phase, changed: bool): (r: State)
    ensures r.phase == ph
  {
    s.(phase := ph, tvCache := None, eventContinue := false, fdChanged := changed)
  }

  lemma PollEnds(s: State, now: Time, nonblock: bool)
    requires StateOk(s) && s.phase.Top? && (s.eventBreak || NothingLeft(s.q, s.deferred))
    ensures var s' := Polled(s, Outside, s.fdChanged); StateOk(s') && PollDid(s, s', now, nonblock)
  {
    hide StateOk, NothingLeft, BaseOk;
    PollKeeps(s, Polled(s, Outside, s.fdChanged), now, nonblock);
  }

  lemma PollSleeps(s: State, now: Time, nonblock: bool, until: Option<Time>, poll: bool)
    requires StateOk(s) && s.phase.Top? && !s.eventBreak && !NothingLeft(s.q, s.deferred) && s.q.countActive >= 0
    requires poll <==> nonblock || s.q.countActive > 0 || s.deferred > 0 || HasDue(s.q, GetTime(s.tvCache, now))
    requires if poll then until.None? else Until(s.q, GetTime(s.tvCache, now), now, until)
    ensures var s' := Polled(s, Blocked(until, poll, now - GetTime(s.tvCache, now)), false);
            StateOk(s') && PollDid(s, s', now, nonblock)
  {
    hide StateOk, NothingLeft, HasDue, Until, BaseOk;
    PollKeeps(s, Polled(s, Blocked(until, poll, now - GetTime(s.tvCache, now)), false), now, nonblock);
  }

  lemma PollKeeps(s: State, s': State, now: Time, nonblock: bool)
    requires StateOk(s) && s.phase.Top? && PollDid(s, s', now, nonblock)
    ensures StateOk(s')
  {
    NothingLeftCounts(s.q, s.deferred, s.notifyEvent);
    BaseCounts(s.q, s.notifyEvent, {});
    hide BaseOk, NothingLeft, Until, HasDue, WakesInTime;
    if s'.phase.Blocked? && !s'.phase.poll { UntilInTime(s.q, GetTime(s.tvCache, now), now, s'.phase.until); }
  }

  /** Nothing for the loop to wait for. */
  ghost predicate NothingLeft(q: Queues, deferred: nat) {
    deferred == 0 && forall e :: e in q.ev ==>
      !q.ev[e].active && (!q.ev[e].internal ==> !q.ev[e].inserted && !q.ev[e].timeout)
  }

  lemma CountsZero(ev: map<Id, Event>)
    ensures UserMemberships(ev) == 0 <==>
              forall e :: e in ev && !ev[e].internal ==> !ev[e].inserted && !ev[e].active && !ev[e].timeout
  {
    if forall e :: e in ev && !ev[e].internal ==> !ev[e].inserted && !ev[e].active && !ev[e].timeout {
      assert UserInserted(ev) == {} && UserActive(ev) == {} && UserTimeout(ev) == {};
    } else {
      var e :| e in ev && !ev[e].internal && (ev[e].inserted || ev[e].active || ev[e].timeout);
      assert e in UserInserted(ev) || e in UserActive(ev) || e in UserTimeout(ev);
    }
  }

  lemma NoneActive(q: Queues)
    requires QueuesOk(q)
    ensures q.countActive == 0 <==> forall e :: e in q.ev ==> !q.ev[e].active
  {
    SumLenZero(q.activequeues);
    if q.countActive == 0 {
      forall e | e in q.ev ensures !q.ev[e].active {
        assert q.activequeues[q.ev[e].pri] == [];
      }
    } else {
      var p :| 0 <= p < |q.activequeues| && q.activequeues[p] != [];
      assert q.activequeues[p][0] in q.activequeues[p];
    }
  }

  lemma NothingLeftCounts(q: Queues, deferred: nat, notifyEvent: Id)
    requires BaseOk(q, notifyEvent, {})
    ensures NothingLeft(q, deferred) <==> q.count == 0 && q.countActive + deferred == 0
  {
    CountsZero(q.ev);
    NoneActive(q);
    SumLenZero(q.activequeues);
    hide InsertedOk, ActiveOk, HeapOk, CommonOk, FrontsOk, InternalOk, UserMemberships, SumLen;
  }

  /** How long the backend waits: until the first deadline, in whole milliseconds, or as long as it may. */
  ghost predicate Waits(q: Queues, now: Time, until: Option<Time>) {
    match until
    case None => q.timeheap == {}
    case Some(u) =>
      exists top :: IsTop(q.ev, q.timeheap, top) && now < q.ev[top].deadline
        && u < q.ev[top].deadline + 1000 && u <= now + 1000 * MAX_WAIT_MSEC
        && (u >= q.ev[top].deadline || u == now + 1000 * MAX_WAIT_MSEC)
  }

  /** The rounding in `evutil_tv_to_msec`, and the cut in `epoll_dispatch`. */
  function Msec(time: Time): nat
    requires time > 0
  {
    if (time + 999) / 1000 > MAX_WAIT_MSEC then MAX_WAIT_MSEC else (time + 999) / 1000
  }

  /** The wait that the loop thread enters at `now`, worked out at `seen`. */
  ghost predicate Sleeps(q: Queues, deferred: nat, nonblock: bool, seen: Time, now: Time, ph: Phase) {
    if nonblock || q.countActive > 0 || deferred > 0 || HasDue(q, seen) then ph == Blocked(None, true, now - seen)
    else ph.Blocked? && !ph.poll && ph.late == now - seen && Until(q, seen, now, ph.until)
  }

  /** A deadline in the heap has come. */
  ghost predicate HasDue(q: Queues, seen: Time) {
    exists e :: e in q.timeheap && e in q.ev && q.ev[e].deadline <= seen
  }

  /** When the wait ends: as long after `now` as the first deadline is after `seen`, in milliseconds. */
  ghost predicate Until(q: Queues, seen: Time, now: Time, until: Option<Time>) {
    match until
    case None => q.timeheap == {}
    case Some(u) =>
      exists top :: IsTop(q.ev, q.timeheap, top) && seen < q.ev[top].deadline
        && u == SleepEnds(q.ev[top].deadline, seen, now)
  }

  /** The time from `seen` to the first deadline, in milliseconds. */
  ghost predicate NextWait(q: Queues, seen: Time, wait: Option<nat>) {
    match wait
    case None => q.timeheap == {}
    case Some(w) =>
      exists top :: IsTop(q.ev, q.timeheap, top) && seen < q.ev[top].deadline && w == Msec(q.ev[top].deadline - seen)
  }

  /** `timeout_next`, in milliseconds, from the time that the base believes it is. */
  method TimeoutNext(q: Queues, seen: Time, ghost notifyEvent: Id) returns (wait: Option<nat>, poll: bool)
    requires BaseOk(q, notifyEvent, {})
    ensures poll <==> HasDue(q, seen)
    ensures if poll then wait.None? else NextWait(q, seen, wait)
    ensures var due := if wait.None? then None else Some(seen + 1000 * wait.value);
            !poll ==> Waits(q, seen, due) && WakesInTime(q, due)
  {
    hide QueuesOk, FrontsOk, InternalOk;
    if q.timeheap == {} { return None, false; }
    var top := HeapTop(q);
    if q.ev[top].deadline <= seen { return None, true; }
    return Some(Msec(q.ev[top].deadline - seen)), false;
  }

  /** When a sleep ends that is worked out at `seen` for a deadline, and begins at `now`. */
  function SleepEnds(deadline: Time, seen: Time, now: Time): Time
    requires seen < deadline
  {
    now + 1000 * Msec(deadline - seen)
  }

  lemma SleepBound(deadline: Time, seen: Time, now: Time)
    requires seen < deadline
    ensures SleepEnds(deadline, seen, now) < deadline + 1000 + (now - seen)
    ensures SleepEnds(deadline, seen, now) ==
              now + if deadline - seen <= 1000 * MAX_WAIT_MSEC then deadline - seen + (seen - deadline) % 1000
                    else 1000 * MAX_WAIT_MSEC
  {
    var time := deadline - seen;
    assert 1000 * ((time + 999) / 1000) == time + (-time) % 1000;
  }

  /** The loop thread sleeps until less than a millisecond after the first deadline if and only if the sleep began
      late by less than what rounding up leaves of a millisecond; a sleep that was cut short has all the time that was
      cut as well. */
  lemma SleepOnTime(s: State, s': State, now: Time, nonblock: bool, top: Id)
    requires PollDid(s, s', now, nonblock) && s'.phase.Blocked? && s'.phase.until.Some?
    requires IsTop(s.q.ev, s.q.timeheap, top)
    ensures var deadline, seen := s.q.ev[top].deadline, GetTime(s.tvCache, now);
            && seen < deadline
            && s'.phase.until.value == SleepEnds(deadline, seen, now) < deadline + 1000 + (now - seen)
            && (s'.phase.until.value < deadline + 1000 <==>
                now - seen < 1000 + if deadline - seen <= 1000 * MAX_WAIT_MSEC then -((seen - deadline) % 1000)
                                    else deadline - seen - 1000 * MAX_WAIT_MSEC)
  {
    var seen := GetTime(s.tvCache, now);
    var first :| IsTop(s.q.ev, s.q.timeheap, first) && seen < s.q.ev[first].deadline
                 && s'.phase.until.value == SleepEnds(s.q.ev[first].deadline, seen, now);
    SleepBound(s.q.ev[top].deadline, seen, now);
  }

  /** When a persistent event is to run again: an interval after it was to run last, or after now if something else made
      it run or that time has passed. */
  function NextRun(r: Event, delay: Time, now: Time): (at: Time)
    ensures delay >= 0 ==> now <= at
    ensures delay >= 0 && r.byTimeout && r.deadline <= now ==> at <= now + delay
    ensures r.byTimeout && now <= r.deadline + delay ==> at == r.deadline + delay
  {
    var at := (if r.byTimeout then r.deadline else now) + delay;
    if at < now then now + delay else at
  }

  /** The timeout that `event_persist_closure` sets, if any. */
  function NextTimeout(r: Event, e: Id, ioTimeout: map<Id, (Time, Option<nat>)>, now: Time, n: nat)
    : (tv: Option<(Time, Option<nat>)>)
    ensures tv.Some? && tv.value.1.Some? ==> tv.value.1.value < n
  {
    if e !in ioTimeout || ioTimeout[e].0 == 0 then None
    else
      var (delay, common) := ioTimeout[e];
      Some((NextRun(r, delay, now), if common.Some? && common.value < n then common else None))
  }

  /** The events that the backend reports become active. */
  ghost function ReadyMarked(ev: map<Id, Event>, ready: seq<Id>): map<Id, Event> {
    map e | e in ev :: if e in ready then Activated(ev[e], false) else ev[e]
  }

  lemma ReadyNext(ev: map<Id, Event>, ready: seq<Id>, k: nat)
    requires k < |ready| && ready[k] in ev
    ensures var m := ReadyMarked(ev, ready[..k]);
            ready[k] in m && m[ready[k] := Activated(m[ready[k]], false)] == ReadyMarked(ev, ready[..k + 1])
  {
    assert ready[..k + 1] == ready[..k] + [ready[k]];
  }

  method ActivateReady(q0: Queues, ready: seq<Id>, ghost notifyEvent: Id) returns (q: Queues)
    requires BaseOk(q0, notifyEvent, {})
    requires forall k :: 0 <= k < |ready| ==> ready[k] in q0.ev
    ensures BaseOk(q, notifyEvent, {}) && q.ev == ReadyMarked(q0.ev, ready) && Orderly(q0, q, {})
  {
    hide QueuesOk, FrontsOk, InternalOk, Activate, Activated, Orderly;
    q := q0;
    OrderlyRefl(q, {});
    assert ReadyMarked(q0.ev, ready[..0]) == q0.ev;
    var k := 0;
    while k < |ready|
      invariant k <= |ready| && BaseOk(q, notifyEvent, {}) && q.ev == ReadyMarked(q0.ev, ready[..k])
      invariant Orderly(q0, q, {})
    {
      ReadyNext(q0.ev, ready, k);
      ActivateBase(q, ready[k], false, notifyEvent, {});
      ActivateEv(q, ready[k], false);
      ActivateOrderly(q, ready[k], false);
      OrderlyTrans(q0, q, Activate(q, ready[k], false), {}, {});
      q := Activate(q, ready[k], false);
      k := k + 1;
    }
    assert ready[..|ready|] == ready;
  }

  lemma FiredInternal(q: Queues, q': Queues, now: Time, notifyEvent: Id)
    requires InternalOk(q, notifyEvent) && HeapFired(q.ev, q'.ev, now)
    ensures InternalOk(q', notifyEvent)
  {
    forall e | e in q.ev ensures SameKind(q.ev[e], q'.ev[e]) {
    }
    InternalFrame(q, q', notifyEvent);
  }

  method ProcessTimeouts(q0: Queues, now: Time, ghost notifyEvent: Id) returns (q: Queues)
    requires BaseOk(q0, notifyEvent, {})
    ensures BaseOk(q, notifyEvent, {}) && HeapFired(q0.ev, q.ev, now)
    ensures Orderly(q0, q, DueInHeap(q0.ev, now))
  {
    hide QueuesOk, FrontsOk, InternalOk, HeapFired, Orderly;
    q := TimeoutProcess(q0, now, {});
    FiredInternal(q0, q, now, notifyEvent);
  }

  lemma ReportedDue(ev: map<Id, Event>, ready: seq<Id>, now: Time)
    ensures DueInHeap(ReadyMarked(ev, ready), now) == DueInHeap(ev, now)
  {
  }

  lemma OrderlyMore(a: Queues, b: Queues, c: Queues, moved: set<Id>)
    requires Orderly(a, b, {}) && Orderly(b, c, moved)
    ensures Orderly(a, c, moved)
  {
    hide Ahead;
    forall p | 0 <= p < |a.activequeues| ensures Joined(a.activequeues[p], b.activequeues[p], moved) {
      assert Joined(a.activequeues[p], b.activequeues[p], {});
    }
    OrderlyTrans(a, b, c, moved, moved);
  }

  /** A wake-up that has arrived makes its event active. */
  lemma NotifyTaken(ev: map<Id, Event>, q1: Queues, q2: Queues, ready: seq<Id>, now: Time, notifyEvent: Id)
    requires q1.ev == ReadyMarked(ev, ready) && HeapFired(q1.ev, q2.ev, now) && BaseOk(q2, notifyEvent, {})
    ensures notifyEvent in ready && notifyEvent in ev ==> notifyEvent in q2.ev && q2.ev[notifyEvent].active
  {
    hide QueuesOk, FrontsOk;
  }

  lemma HeadActive(q: Queues, p: nat, notifyEvent: Id)
    requires BaseOk(q, notifyEvent, {}) && p < |q.activequeues| && q.activequeues[p] != []
             && EmptyBelow(q.activequeues, p)
    ensures var e := q.activequeues[p][0];
            && e in q.ev && q.ev[e].active && q.ev[e].pri == p && (q.ev[e].internal ==> p == 0)
            && forall x :: x in q.ev && q.ev[x].active ==> p <= q.ev[x].pri
  {
    assert q.activequeues[p][0] in q.activequeues[p];
    forall x | x in q.ev && q.ev[x].active ensures p <= q.ev[x].pri {
      assert x in q.activequeues[q.ev[x].pri];
    }
    hide FrontsOk;
  }

  /** Which common list an event stands for. */
  method FindFront(cs: seq<CommonList>, e: Id) returns (i: Option<nat>)
    ensures match i case None => NotFront(cs, e) case Some(k) => k < |cs| && cs[k].front == e
  {
    var k := 0;
    while k < |cs|
      invariant k <= |cs| && forall j :: 0 <= j < k ==> cs[j].front != e
    {
      if cs[k].front == e { return Some(k); }
      k := k + 1;
    }
    i := None;
  }

  /** What taking an event for its callback makes of it: a persistent one stays where it is, except that its next
      timeout is set. */
  function Taken(r: Event, again: Option<(Time, Option<nat>)>, ioRes: int): Event {
    var r1 := r.(active := false);
    if !r.persist then Cleared(r)
    else if r.internal || again.None? || (Inserts(r1) && ioRes == -1) then r1
    else Added(r1, again, 0)
  }

  lemma RemoveActiveBase(q: Queues, e: Id, notifyEvent: Id)
    requires BaseOk(q, notifyEvent, {}) && e in q.ev && q.ev[e].active && q.ev[e].persist
    ensures Deletes(q, e) && BaseOk(RemoveActive(q, e), notifyEvent, {})
    ensures QueuesShrink(q, RemoveActive(q, e))
  {
    Deletable(q, e);
    RemoveActiveOk(q, e);
    UserNotFront(q.ev, q.commons, e, {});
    FrontsOther(q.ev, q.commons, e, q.ev[e].(active := false));
    RemoveThins(q.activequeues[q.ev[e].pri], e);
    hide QueuesOk, FrontsOk, Thinned, Remove;
    InternalFrame(q, RemoveActive(q, e), notifyEvent);
  }

  lemma FrontsOther(ev: map<Id, Event>, cs: seq<CommonList>, e: Id, r: Event)
    requires FrontsOk(ev, cs, {}) && e in ev && NotFront(cs, e) && r.deadline == ev[e].deadline
    ensures FrontsOk(ev[e := r], cs, {})
  {
    forall j | 0 <= j < |cs| ensures FrontDue(ev[e := r], cs[j]) {
      assert FrontDue(ev, cs[j]);
    }
    hide FrontDue;
  }

  /** The front event of list `i` is taken; the list is busy until its callback has run. */
  lemma DelFrontBase(q: Queues, i: nat, notifyEvent: Id)
    requires BaseOk(q, notifyEvent, {}) && i < |q.commons|
    ensures var e := q.commons[i].front;
            e in q.ev && FrontEvent(q.ev[e]) && Deletes(q, e) && BaseOk(Del(q, e), notifyEvent, {i})
              && Del(q, e).commons == q.commons
  {
    var e := q.commons[i].front;
    assert FrontEvent(q.ev[e]);
    DelOk(q, e);
    DelFrontEvent(q, i, {});
    assert {} + {i} == {i};
    hide QueuesOk, FrontsOk, Del;
    InternalFrame(q, Del(q, e), notifyEvent);
  }

  lemma NotifyPersists(q: Queues, notifyEvent: Id)
    requires InternalOk(q, notifyEvent)
    ensures notifyEvent in q.ev && q.ev[notifyEvent].persist && q.ev[notifyEvent].internal
  {
  }

  lemma UpdateUsers(ev: map<Id, Event>, e: Id, r: Event)
    requires e in ev && (r.active ==> ev[e].active) && r.internal == ev[e].internal && !r.inserted
    ensures UserChange(ev, ev[e := r], e, r) && CalmBut(ev, ev[e := r], e)
  {
  }

  lemma PersistentKept(q: Queues, e: Id)
    requires e in q.ev && q.ev[e].pri < |q.activequeues|
    ensures UserChange(q.ev, RemoveActive(q, e).ev, e, q.ev[e].(active := false)) && Calm(q.ev, RemoveActive(q, e).ev)
  {
  }

  /** `event_persist_closure`, up to the callback: the event keeps its place, and its next timeout is set. */
  method TakePersistent(q0: Queues, e: Id, again: Option<(Time, Option<nat>)>, ioRes: int, ghost notifyEvent: Id)
    returns (q: Queues)
    requires BaseOk(q0, notifyEvent, {}) && e in q0.ev && q0.ev[e].active && q0.ev[e].persist
    requires Known(again, q0.commons)
    ensures BaseOk(q, notifyEvent, {}) && QueuesShrink(q0, q)
    ensures UserChange(q0.ev, q.ev, e, Taken(q0.ev[e], again, ioRes)) && e in q.ev && !q.ev[e].active
    ensures Calm(q0.ev, q.ev)
  {
    hide QueuesOk, FrontsOk, InternalOk, UserChange, NoEarlier, QueuesShrink, Calm;
    RemoveActiveBase(q0, e, notifyEvent);
    PersistentKept(q0, e);
    q := RemoveActive(q0, e);
    if !q.ev[e].internal && again.Some? && !(Inserts(q.ev[e]) && ioRes == -1) {
      ghost var q1 := q;
      var notify;
      q, notify := AddEvent(q, e, again, 0, notifyEvent, {});
      QueuesShrinkTrans(q0, q1, q);
      CalmTwice(q0.ev, q1.ev, q.ev);
      UserChangeTwice(q0.ev, q1.ev, q.ev, e, q1.ev[e], Added(q1.ev[e], again, 0));
      UserNow(q0.ev, q.ev, e, Added(q1.ev[e], again, 0));
    }
  }

  lemma UserNow(ev0: map<Id, Event>, ev: map<Id, Event>, e: Id, r: Event)
    requires UserChange(ev0, ev, e, r) && e in ev0 && !ev0[e].internal
    ensures e in ev && ev[e] == r
  {
  }

  method TakeEvent(q0: Queues, e: Id, front: Option<nat>, again: Option<(Time, Option<nat>)>, ioRes: int,
                   ghost notifyEvent: Id)
    returns (q: Queues)
    requires BaseOk(q0, notifyEvent, {}) && e in q0.ev && q0.ev[e].active
    requires Known(again, q0.commons)
    requires match front
             case None => NotFront(q0.commons, e)
             case Some(k) => k < |q0.commons| && q0.commons[k].front == e
    ensures BaseOk(q, notifyEvent, if front.Some? && e != notifyEvent then {front.value} else {})
    ensures QueuesShrink(q0, q)
    ensures UserChange(q0.ev, q.ev, e, Taken(q0.ev[e], again, ioRes)) && e in q.ev && !q.ev[e].active
    ensures CalmBut(q0.ev, q.ev, e)
    ensures front.Some? || e == notifyEvent ==> q0.ev[e].internal
    ensures front.Some? ==> e != notifyEvent && q.commons == q0.commons
  {
    hide QueuesOk, FrontsOk, InternalOk, UserChange, Calm, CalmBut;
    NotifyPersists(q0, notifyEvent);
    if q0.ev[e].persist {
      UserNotFront(q0.ev, q0.commons, e, {});
      q := TakePersistent(q0, e, again, ioRes, notifyEvent);
      CalmIsCalmBut(q0.ev, q.ev, e);
    } else {
      if front.None? {
        DelBase(q0, e, notifyEvent, {});
      } else {
        DelFrontBase(q0, front.value, notifyEvent);
      }
      DelEv(q0, e);
      UpdateUsers(q0.ev, e, Cleared(q0.ev[e]));
      DelShrinks(q0, e);
      q := Del(q0, e);
    }
  }

  lemma ListFiredInternal(q: Queues, q': Queues, i: nat, now: Time, notifyEvent: Id)
    requires InternalOk(q, notifyEvent) && FrontsOk(q.ev, q.commons, {i}) && FrontsOk(q'.ev, q'.commons, {})
             && i < |q.commons|
    requires ListFired(q.ev, q'.ev, i, q.commons[i].front, now) && OthersKept(q.commons, q'.commons, i)
    ensures InternalOk(q', notifyEvent)
  {
    var front := q.commons[i].front;
    assert FrontEvent(q.ev[front]) && FrontEvent(q'.ev[q'.commons[i].front]);
    hide FrontsOk;
    forall e | e in q.ev ensures SameKind(q.ev[e], q'.ev[e]) {
    }
    InternalFrame(q, q', notifyEvent);
  }

  lemma QueueOfPriority0(q: Queues, notifyEvent: Id)
    requires QueuesOk(q) && InternalOk(q, notifyEvent)
    ensures |q.activequeues| > 0
  {
  }

  /** `common_timeout_callback` for a base. */
  method RunFront(q0: Queues, i: nat, now: Time, ghost notifyEvent: Id) returns (q: Queues)
    requires BaseOk(q0, notifyEvent, {i})
    ensures BaseOk(q, notifyEvent, {}) && |q.activequeues| > 0
    ensures i < |q0.commons| && ListFired(q0.ev, q.ev, i, q0.commons[i].front, now)
    ensures Orderly(q0, q, {q0.commons[i].front} + DueInList(q0.ev, i, now))
  {
    hide QueuesOk, FrontsOk, InternalOk, Orderly;
    assert i in {i};
    q := CommonCallback(q0, i, now, {i});
    assert {i} - {i} == {};
    ListFiredInternal(q0, q, i, now, notifyEvent);
    QueueOfPriority0(q, notifyEvent);
  }

  lemma BaseCounts(q: Queues, notifyEvent: Id, busy: set<nat>)
    requires BaseOk(q, notifyEvent, busy)
    ensures q.countActive >= 0
            && (q.countActive == 0 <==> forall p :: 0 <= p < |q.activequeues| ==> q.activequeues[p] == [])
  {
    SumLenZero(q.activequeues);
  }

  lemma BaseActive(q: Queues, e: Id, notifyEvent: Id, busy: set<nat>)
    requires BaseOk(q, notifyEvent, busy) && e in q.ev
    ensures q.ev[e].active ==> q.countActive > 0
    ensures q.ev[e].pri < |q.activequeues| && (q.ev[e].active ==> q.activequeues[q.ev[e].pri] != [])
  {
    if q.ev[e].active {
      ActiveCounted(q, e);
      assert e in q.activequeues[q.ev[e].pri];
    }
  }

  // ------------------------------------------------------------ any run

  /** While the list is looked after by the heap, so is every event in it. */
  lemma ListInTime(q: Queues, e: Id, until: Option<Time>)
    requires QueuesOk(q) && FrontsOk(q.ev, q.commons, {}) && WakesInTime(q, until)
    requires forall x :: x in q.ev ==> !q.ev[x].active
    requires e in q.ev && q.ev[e].timeout && q.ev[e].common.Some?
    ensures until.Some? && until.value < q.ev[e].deadline + 1000
  {
    var i := q.ev[e].common.value;
    assert CommonOk(q.ev, q.commons);
    var s := q.commons[i].events;
    assert e in s;
    var k :| 0 <= k < |s| && s[k] == e;
    assert q.ev[s[0]].deadline <= q.ev[s[k]].deadline;
    assert FrontDue(q.ev, q.commons[i]) && FrontEvent(q.ev[q.commons[i].front]);
    assert q.commons[i].front in q.timeheap;
  }

  /** While the loop thread sleeps and the wake-up fd is not readable, no event is active, no callback is deferred,
      nobody has asked for a break, the backend knows of every fd, and no timeout, whether in the heap or in a common
      list, ends a millisecond or more before the sleep would have ended had it not begun late: after the time at
      which the base last looked at the clock. */
  ghost predicate NothingMissed(s: State) {
    s.phase.Blocked? && !s.phase.poll && !s.notifyReadable ==>
      && s.deferred == 0 && !s.eventBreak && !s.fdChanged && (forall e :: e in s.q.ev ==> !s.q.ev[e].active)
      && (forall e :: e in s.q.ev && s.q.ev[e].timeout ==>
            s.phase.until.Some? && s.phase.until.value < s.q.ev[e].deadline + 1000 + s.phase.late)
      && (!s.cacheTime ==> s.phase.late == 0)
  }

  /** No wake-up is lost. */
  lemma NoLostWakeup(s: State)
    requires StateOk(s)
    ensures NothingMissed(s)
  {
    hide QueuesOk, FrontsOk, InternalOk, WakesInTime;
    if s.phase.Blocked? && !s.phase.poll && !s.notifyReadable {
      var q, due := s.q, Due(s.phase.until, s.phase.late);
      NoneActive(q);
      HeapKnown(q);
      forall e | e in q.ev && q.ev[e].timeout ensures due.Some? && due.value < q.ev[e].deadline + 1000 {
        if q.ev[e].common.Some? {
          ListInTime(q, e, due);
        } else {
          HeapInTime(q, e, due);
        }
      }
    }
  }

  lemma HeapInTime(q: Queues, e: Id, until: Option<Time>)
    requires WakesInTime(q, until) && e in q.timeheap && e in q.ev
    ensures until.Some? && until.value < q.ev[e].deadline + 1000
  {
  }

  /** A base after `event_base_new`, with the user's events set up but not added. */
  ghost predicate Fresh(q: Queues, notifyEvent: Id) {
    && notifyEvent in q.ev
    && q.ev[notifyEvent] == Event(true, 0, true, true, true, false, false, 0, None, false)
    && q.eventqueue == [notifyEvent] && |q.activequeues| > 0 && q.timeheap == {} && q.count == 0 && q.countActive == 0
    && (forall p :: 0 <= p < |q.activequeues| ==> q.activequeues[p] == [])
    && (forall e :: e in q.ev ==> q.ev[e].pri < |q.activequeues| && !q.ev[e].active && !q.ev[e].timeout)
    && (forall e :: e in q.ev && e != notifyEvent ==> !q.ev[e].inserted && (q.ev[e].internal ==> q.ev[e].pri == 0))
    && (forall i :: 0 <= i < |q.commons| ==>
          q.commons[i].events == [] && q.commons[i].front in q.ev && FrontEvent(q.ev[q.commons[i].front]))
    && (forall i, j :: 0 <= i < j < |q.commons| ==> q.commons[i].front != q.commons[j].front)
  }

  lemma FreshOk(q: Queues, notifyEvent: Id)
    requires Fresh(q, notifyEvent)
    ensures BaseOk(q, notifyEvent, {})
  {
    CountsZero(q.ev);
    SumLenZero(q.activequeues);
    assert InsertedOk(q.ev, q.eventqueue);
    assert ActiveOk(q.ev, q.activequeues);
    assert CommonOk(q.ev, q.commons);
    hide SumLen, UserMemberships, InsertedOk, ActiveOk, CommonOk;
  }

  /** Everything that can happen to a base: calls from any thread, and the steps of the loop thread. */
  datatype Step =
    | DoAdd(e: Id, tv: Option<(Time, Option<nat>)>, now: Time, ioRes: int, inLoop: bool)
    | DoDel(e: Id, ioRes: int, inLoop: bool)
    | DoActive(e: Id, inLoop: bool)
    | DoDefer(inLoop: bool)
    | DoBreak(inLoop: bool)
    | DoStart
    | DoLeave
    | DoPollStart(now: Time, nonblock: bool)
    | DoPollEnd(ready: seq<Id>, now: Time)
    | DoPollFails
    | DoLoop(ioRes: int, now: Time)

  function NewState(q: Queues, notifyEvent: Id, cacheTime: bool): State {
    State(q, 0, Outside, false, false, false, None, map[], false, false, -1, notifyEvent, cacheTime)
  }

  /** What a step makes of the state of a base. */
  ghost predicate Did(step: Step, s: State, s': State) {
    match step
    case DoAdd(e, tv, now, ioRes, inLoop) =>
      if MayCall(s.phase, inLoop) && UserEvent(s.q, e) && Known(tv, s.q.commons) then
        AddDid(s, s', e, tv, now, ioRes, inLoop)
      else s' == s
    case DoDel(e, ioRes, inLoop) =>
      if MayCall(s.phase, inLoop) && UserEvent(s.q, e) then DelDid(s, s', e, ioRes, inLoop) else s' == s
    case DoActive(e, inLoop) =>
      if MayCall(s.phase, inLoop) && UserEvent(s.q, e) then ActiveDid(s, s', e, inLoop) else s' == s
    case DoDefer(inLoop) => s' == if MayCall(s.phase, inLoop) then Woken(s.(deferred := s.deferred + 1), inLoop) else s
    case DoBreak(inLoop) => s' == if MayCall(s.phase, inLoop) then Woken(s.(eventBreak := true), inLoop) else s
    case DoStart => s' == if s.phase.Outside? then s.(phase := Top, tvCache := None, eventBreak := false) else s
    case DoLeave => s' == if s.phase.Top? then s.(phase := Outside, tvCache := None) else s
    case DoPollStart(now, nonblock) => if s.phase.Top? then PollDid(s, s', now, nonblock) else s' == s
    case DoPollEnd(ready, now) =>
      if s.phase.Blocked? && Reportable(s.q, ready) then PollEndDid(s, s', ready, now) else s' == s
    case DoPollFails => s' == if s.phase.Blocked? then s.(phase := Outside) else s
    case DoLoop(ioRes, now) => LoopDid(s, s', ioRes, now)
  }

  ghost predicate DelDid(s: State, s': State, e: Id, ioRes: int, inLoop: bool)
    requires e in s.q.ev
  {
    && s'.q.ev == s.q.ev[e := Cleared(s.q.ev[e])] && QueuesShrink(s.q, s'.q)
    && var quiet := s.(q := s'.q);
       if s.q.ev[e].inserted && ioRes == 1 then s' == Woken(quiet.(fdChanged := true), inLoop) else s' == quiet
  }

  /** The event goes to the end of the queue of its priority, unless it is active already. */
  ghost predicate ActiveDid(s: State, s': State, e: Id, inLoop: bool)
    requires e in s.q.ev
  {
    var p, qs := s.q.ev[e].pri, s.q.activequeues;
    && p < |qs| && s'.q.ev == s.q.ev[e := Activated(s.q.ev[e], false)]
    && s'.q.activequeues == (if s.q.ev[e].active then qs else qs[p := qs[p] + [e]]) && s'.q.commons == s.q.commons
    && var quiet := s.(q := s'.q);
       if s.q.ev[e].active then s' == quiet
       else if p < s.runningPriority then s' == Woken(quiet.(eventContinue := true), inLoop)
       else s' == Woken(quiet, inLoop)
  }

  ghost predicate AddDid(s: State, s': State, e: Id, tv: Option<(Time, Option<nat>)>, now: Time, ioRes: int,
                         inLoop: bool)
    requires e in s.q.ev
  {
    var told := Inserts(s.q.ev[e]) && ioRes == 1;
    if Inserts(s.q.ev[e]) && ioRes == -1 then s' == s
    else
      && UserChange(s.q.ev, s'.q.ev, e, Added(s.q.ev[e], tv, GetTime(s.tvCache, now)))
      && Calm(s.q.ev, s'.q.ev) && QueuesShrink(s.q, s'.q)
      && var quiet := s.(q := s'.q, ioTimeout := AgainAfter(s.ioTimeout, s.q.ev[e], e, tv));
         if told then s' == Woken(quiet.(fdChanged := true), inLoop)
         else s' == Woken(quiet, inLoop) || (s' == quiet && NoEarlier(s.q, s'.q))
  }

  ghost predicate PollDid(s: State, s': State, now: Time, nonblock: bool) {
    && s' == s.(phase := s'.phase, tvCache := None, eventContinue := false, fdChanged := s'.fdChanged)
    && if s.eventBreak || NothingLeft(s.q, s.deferred) then s'.phase == Outside && s'.fdChanged == s.fdChanged
       else !s'.fdChanged && Sleeps(s.q, s.deferred, nonblock, GetTime(s.tvCache, now), now, s'.phase)
  }

  /** The loop thread takes the first event of its queue and runs its callback. */
  ghost predicate TakeDid(s: State, s': State, e: Id, ioRes: int, now: Time)
    requires s.phase.InQueue? && s.phase.p < |s.q.activequeues| && s.q.activequeues[s.phase.p] != []
  {
    && e == s.q.activequeues[s.phase.p][0] && e in s.q.ev && s.q.ev[e].active && e in s'.q.ev && !s'.q.ev[e].active
    && s' == s.(q := s'.q, phase := s'.phase, fdChanged := s'.fdChanged)
    && (forall x :: x in s.q.ev && s.q.ev[x].active ==> s.q.ev[e].pri <= s.q.ev[x].pri)
    && s'.phase.Running? && s'.phase.p == s.phase.p && !s'.phase.cb.DrainedCallback?
    && (s'.phase.cb.DrainCallback? <==> e == s.notifyEvent) && (s'.phase.cb.UserCallback? ==> NotFront(s.q.commons, e))
    && (s'.phase.cb.FrontCallback? ==> s'.phase.cb.i < |s'.q.commons| && s'.q.commons[s'.phase.cb.i].front == e)
    && s'.phase.count == s.phase.count + (if s.q.ev[e].internal then 0 else 1) && QueuesShrink(s.q, s'.q)
    && var again := NextTimeout(s.q.ev[e], e, s.ioTimeout, GetTime(s.tvCache, now), |s.q.commons|);
       UserChange(s.q.ev, s'.q.ev, e, Taken(s.q.ev[e], again, ioRes)) && CalmBut(s.q.ev, s'.q.ev, e)
  }

  /** The backend has reported, and the heap has been looked at. */
  ghost predicate PollEndDid(s: State, s': State, ready: seq<Id>, now: Time) {
    && HeapFired(ReadyMarked(s.q.ev, ready), s'.q.ev, now)
    && Orderly(s.q, s'.q, DueInHeap(s.q.ev, now))
    && (s.notifyEvent in ready ==> s.notifyEvent in s'.q.ev && s'.q.ev[s.notifyEvent].active)
    && s' == s.(q := s'.q, phase := if s'.q.countActive + s.deferred > 0 then Choosing(0) else Top,
                tvCache := if s.cacheTime then Some(now) else None)
  }

  ghost predicate LoopDid(s: State, s': State, ioRes: int, now: Time) {
    match s.phase
    case Choosing(p) => p <= |s.q.activequeues| && s' == Chosen(s)
    case InQueue(_, _) => QueueDid(s, s', ioRes, now)
    case Running(_, _, _) => CallbackDid(s, s', now)
    case Deferring(_) => s' == AfterDeferring(s)
    case RunningDeferred(_) => s' == AfterDeferred(s)
    case _ => s' == s
  }

  ghost predicate QueueDid(s: State, s': State, ioRes: int, now: Time)
    requires s.phase.InQueue?
  {
    var p, count := s.phase.p, s.phase.count;
    && p < |s.q.activequeues|
    && if s.q.activequeues[p] == [] then s' == s.(phase := if count > 0 then Deferring(0) else Choosing(p + 1))
       else exists e :: TakeDid(s, s', e, ioRes, now)
  }

  ghost predicate CallbackDid(s: State, s': State, now: Time)
    requires s.phase.Running?
  {
    match s.phase.cb
    case UserCallback => s' == Returned(s)
    case FrontCallback(i) =>
      && s' == s.(q := s'.q, phase := s.phase.(cb := UserCallback)) && i < |s.q.commons|
      && var seen := GetTime(s.tvCache, now);
         && ListFired(s.q.ev, s'.q.ev, i, s.q.commons[i].front, seen)
         && Orderly(s.q, s'.q, {s.q.commons[i].front} + DueInList(s.q.ev, i, seen))
    case DrainCallback => s' == s.(notifyReadable := false, phase := s.phase.(cb := DrainedCallback))
    case DrainedCallback => s' == s.(isNotifyPending := false, phase := s.phase.(cb := UserCallback))
  }

  /** The states of a base, one after each step. */
  ghost predicate Trace(steps: seq<Step>, trace: seq<State>) {
    |trace| == |steps| + 1 && forall k :: 0 <= k < |steps| ==> Did(steps[k], trace[k], trace[k + 1])
  }

  /** Any interleaving of calls and loop steps, in any order; a step that is not possible is skipped.  The trace tells
      what each of them did, and in none of its states a wake-up has been lost. */
  method Run(q: Queues, notifyEvent: Id, cacheTime: bool, steps: seq<Step>)
    returns (base: EventBase, ghost trace: seq<State>)
    requires Fresh(q, notifyEvent)
    ensures base.Valid() && Trace(steps, trace) && trace[0] == NewState(q, notifyEvent, cacheTime)
    ensures base.Now() == trace[|steps|]
    ensures forall k :: 0 <= k < |trace| ==> StateOk(trace[k]) && NothingMissed(trace[k])
  {
    hide Did, StateOk, NothingMissed;
    base := new EventBase(q, notifyEvent, cacheTime);
    trace := [base.Now()];
    NoLostWakeup(base.Now());
    for k := 0 to |steps|
      invariant base.Valid() && fresh(base) && |trace| == k + 1 && base.Now() == trace[k]
      invariant trace[0] == NewState(q, notifyEvent, cacheTime)
      invariant forall j :: 0 <= j < k ==> Did(steps[j], trace[j], trace[j + 1])
      invariant forall j :: 0 <= j < |trace| ==> StateOk(trace[j]) && NothingMissed(trace[j])
    {
      base.Perform(steps[k]);
      NoLostWakeup(base.Now());
      trace := trace + [base.Now()];
    }
  }
}
