/**
 The event loop of libevent/event.c on top of its fd map and epoll backend: what the kernel watches, while the loop
 thread sleeps, is what the events that have been added wait for.
 */
module EventBackend {
  import opened Common
  import opened Lists
  import opened EventQueues
  import opened EventTimeouts
  import opened EventLoop
  import C = Changelist

  /** What an event waits for. */
  datatype Target = Target(fd: int, dirs: C.Interest)

  type Targets = Id -> Target

  ghost function Inserted(ev: map<Id, Event>): set<Id> {
    set e | e in ev && ev[e].inserted
  }

  /** The entry of an event in the list of its fd. */
  function Entry(t: Targets, e: Id): C.Event {
    C.Event(e, t(e).dirs)
  }

  predicate Belongs(x: C.Event, fd: int, ins: set<Id>, t: Targets) {
    x.id in ins && t(x.id) == Target(fd, x.dirs)
  }

  /** The fd map lists exactly the given events, each once; those without an fd it does not know. */
  ghost predicate Linked(ins: set<Id>, t: Targets, io: map<int, C.IoSlot>) {
    && (forall fd, x :: x in C.EventsOf(io, fd) ==> Belongs(x, fd, ins, t))
    && (forall fd :: NoDup(C.EventsOf(io, fd)))
    && (forall e :: e in ins && t(e).fd >= 0 ==> Entry(t, e) in C.EventsOf(io, t(e).fd))
  }

  /** The kernel watches each fd for what the listed events wait for. */
  ghost predicate UpToDate(io: map<int, C.IoSlot>, kernel: C.Kernel) {
    forall fd :: C.Seen(kernel, fd) == C.WantedBy(C.EventsOf(io, fd))
  }

  ghost predicate Listed(io: map<int, C.IoSlot>, io': map<int, C.IoSlot>, fd: int, events: seq<C.Event>) {
    C.EventsOf(io', fd) == events && forall g :: g != fd ==> C.EventsOf(io', g) == C.EventsOf(io, g)
  }

  lemma WithoutOne(s: seq<C.Event>, i: nat)
    requires i < |s| && NoDup(s)
    ensures NoDup(C.Without(s, i)) && forall x :: x in C.Without(s, i) <==> x in s && x != s[i]
  {
    var r := C.Without(s, i);
    forall x | x in s && x != s[i] ensures x in r {
      var k :| 0 <= k < |s| && s[k] == x;
      assert r[if k < i then k else k - 1] == x;
    }
  }

  lemma LinkedAdd(ins: set<Id>, t: Targets, io: map<int, C.IoSlot>, io': map<int, C.IoSlot>, e: Id)
    requires Linked(ins, t, io) && e !in ins
    requires Listed(io, io', t(e).fd, C.EventsOf(io, t(e).fd) + [Entry(t, e)])
    ensures Linked(ins + {e}, t, io')
  {
    hide C.EventsOf;
    var was := C.EventsOf(io, t(e).fd);
    assert Entry(t, e) !in was;
    assert NoDup(was) && NoDup(was + [Entry(t, e)]);
    forall fd ensures NoDup(C.EventsOf(io', fd)) {
      if fd != t(e).fd { assert NoDup(C.EventsOf(io, fd)); }
    }
  }

  lemma LinkedDel(ins: set<Id>, t: Targets, io: map<int, C.IoSlot>, io': map<int, C.IoSlot>, e: Id, i: nat)
    requires Linked(ins, t, io) && i < |C.EventsOf(io, t(e).fd)| && C.EventsOf(io, t(e).fd)[i] == Entry(t, e)
    requires Listed(io, io', t(e).fd, C.Without(C.EventsOf(io, t(e).fd), i))
    ensures Linked(ins - {e}, t, io')
  {
    hide C.EventsOf, C.Without;
    assert NoDup(C.EventsOf(io, t(e).fd));
    WithoutOne(C.EventsOf(io, t(e).fd), i);
    hide NoDup;
    forall fd, x | x in C.EventsOf(io', fd) ensures Belongs(x, fd, ins - {e}, t) {
      assert x in C.EventsOf(io, fd) && Belongs(x, fd, ins, t);
    }
    forall x | x in ins - {e} && t(x).fd >= 0 ensures Entry(t, x) in C.EventsOf(io', t(x).fd) {
      assert Entry(t, x) in C.EventsOf(io, t(x).fd);
    }
    forall fd ensures NoDup(C.EventsOf(io', fd)) {
      if fd != t(e).fd { assert NoDup(C.EventsOf(io, fd)); }
    }
  }

  /** An event without an fd is in no list. */
  lemma LinkedNoFd(ins: set<Id>, t: Targets, io: map<int, C.IoSlot>, e: Id)
    requires Linked(ins, t, io) && t(e).fd < 0 && forall fd :: fd in io ==> fd >= 0
    ensures Linked(ins + {e}, t, io) && Linked(ins - {e}, t, io)
  {
    forall fd, x | x in C.EventsOf(io, fd) ensures Belongs(x, fd, ins + {e}, t) && Belongs(x, fd, ins - {e}, t) {
      assert Belongs(x, fd, ins, t);
    }
  }

  // ------------------------------------------------------------ what the fd map answers

  /** The added events that wait to read from an fd, or to write to it. */
  ghost function Readers(ins: set<Id>, t: Targets, fd: int): set<Id> {
    set e | e in ins && t(e).fd == fd && t(e).dirs.read
  }

  ghost function Writers(ins: set<Id>, t: Targets, fd: int): set<Id> {
    set e | e in ins && t(e).fd == fd && t(e).dirs.write
  }

  /** What `evmap_io_add` returns: -1 when a count would not fit in 16 bits, and 1 when the event is the first to wait
      for something. */
  ghost function AddAnswer(ins: set<Id>, t: Targets, e: Id): int {
    var readers, writers, dirs := |Readers(ins, t, t(e).fd)|, |Writers(ins, t, t(e).fd)|, t(e).dirs;
    if t(e).fd < 0 then 0
    else if (dirs.read && readers >= 0xffff) || (dirs.write && writers >= 0xffff) then -1
    else if (dirs.read && readers == 0) || (dirs.write && writers == 0) then 1
    else 0
  }

  /** What `evmap_io_del` returns for an event that is there: 1 when it was the last to wait for something. */
  ghost function DelAnswer(ins: set<Id>, t: Targets, e: Id): int {
    var readers, writers, dirs := |Readers(ins, t, t(e).fd)|, |Writers(ins, t, t(e).fd)|, t(e).dirs;
    if t(e).fd >= 0 && ((dirs.read && readers == 1) || (dirs.write && writers == 1)) then 1 else 0
  }

  ghost function ReadIds(events: seq<C.Event>): set<Id> {
    set x | x in events && x.dirs.read :: x.id
  }

  ghost function WriteIds(events: seq<C.Event>): set<Id> {
    set x | x in events && x.dirs.write :: x.id
  }

  lemma IdsOfFirst(events: seq<C.Event>)
    requires events != []
    ensures ReadIds(events) == ReadIds(events[1..]) + if events[0].dirs.read then {events[0].id} else {}
    ensures WriteIds(events) == WriteIds(events[1..]) + if events[0].dirs.write then {events[0].id} else {}
  {
    assert forall y :: y in events <==> y == events[0] || y in events[1..];
  }

  predicate DistinctIds(events: seq<C.Event>) {
    forall i, j :: 0 <= i < j < |events| ==> events[i].id != events[j].id
  }

  lemma FirstIsNew(events: seq<C.Event>)
    requires DistinctIds(events) && events != []
    ensures DistinctIds(events[1..])
    ensures events[0].id !in ReadIds(events[1..]) && events[0].id !in WriteIds(events[1..])
  {
    forall y | y in events[1..] ensures y.id != events[0].id {
      var k :| 0 <= k < |events[1..]| && events[1..][k] == y;
      assert events[k + 1] == y;
    }
  }

  lemma {:induction false} CountIds(events: seq<C.Event>)
    requires DistinctIds(events)
    ensures C.CountRead(events) == |ReadIds(events)| && C.CountWrite(events) == |WriteIds(events)|
  {
    if events != [] {
      hide ReadIds, WriteIds, DistinctIds;
      IdsOfFirst(events);
      FirstIsNew(events);
      CountIds(events[1..]);
    }
  }

  /** The counts of the map count the added events. */
  lemma CountsAre(ins: set<Id>, t: Targets, io: map<int, C.IoSlot>, fd: int)
    requires Linked(ins, t, io) && fd >= 0
    ensures C.CountRead(C.EventsOf(io, fd)) == |Readers(ins, t, fd)|
    ensures C.CountWrite(C.EventsOf(io, fd)) == |Writers(ins, t, fd)|
  {
    hide C.EventsOf, C.CountRead, C.CountWrite;
    var events := C.EventsOf(io, fd);
    assert NoDup(events);
    forall i, j | 0 <= i < j < |events| ensures events[i].id != events[j].id {
      assert events[i] in events && events[j] in events;
      assert Belongs(events[i], fd, ins, t) && Belongs(events[j], fd, ins, t);
    }
    CountIds(events);
    SameReaders(ins, t, io, fd);
  }

  lemma SameReaders(ins: set<Id>, t: Targets, io: map<int, C.IoSlot>, fd: int)
    requires Linked(ins, t, io) && fd >= 0
    ensures ReadIds(C.EventsOf(io, fd)) == Readers(ins, t, fd) && WriteIds(C.EventsOf(io, fd)) == Writers(ins, t, fd)
  {
    hide C.EventsOf, NoDup;
    var events := C.EventsOf(io, fd);
    forall x | x in events ensures Belongs(x, fd, ins, t) {
    }
    forall e | e in ins && t(e).fd == fd ensures Entry(t, e) in events {
    }
    assert forall e :: e in Readers(ins, t, fd) ==> Entry(t, e) in events && Entry(t, e).dirs.read;
    assert forall e :: e in Writers(ins, t, fd) ==> Entry(t, e) in events && Entry(t, e).dirs.write;
  }

  // ------------------------------------------------------------ one event

  lemma IoKnown(io: C.IoBase)
    requires io.Valid()
    ensures forall fd :: fd in io.io ==>
              && 0 <= fd < io.nentries && io.io[fd].Wanted() == C.WantedBy(io.io[fd].events)
              && C.SlotCounted(io.io[fd])
  {
    forall fd | fd in io.io
      ensures && 0 <= fd < io.nentries && io.io[fd].Wanted() == C.WantedBy(io.io[fd].events)
              && C.SlotCounted(io.io[fd])
    {
      C.WantedOf(io, fd);
    }
  }

  /** What an update of one list does to what is watched. */
  lemma StillUpToDate(io: map<int, C.IoSlot>, io': map<int, C.IoSlot>, kernel: C.Kernel, fd: int, events: seq<C.Event>)
    requires UpToDate(io, kernel) && Listed(io, io', fd, events) && C.WantedBy(events) == C.WantedBy(C.EventsOf(io, fd))
    ensures UpToDate(io', kernel)
  {
    hide C.EventsOf, C.Seen, C.WantedBy;
    forall g ensures C.Seen(kernel, g) == C.WantedBy(C.EventsOf(io', g)) {
      assert C.Seen(kernel, g) == C.WantedBy(C.EventsOf(io, g));
    }
  }

  /** The fd map is told of an event. */
  method Watch(io: C.IoBase, t: Targets, e: Id, ghost ins: set<Id>) returns (r: int)
    requires io.Valid() && Linked(ins, t, io.io) && e !in ins
    modifies io
    ensures io.Valid() && io.kernel == old(io.kernel) && r == AddAnswer(ins, t, e)
    ensures Linked(if r == -1 then ins else ins + {e}, t, io.io)
    ensures r != 1 && old(UpToDate(io.io, io.kernel)) ==> UpToDate(io.io, io.kernel)
  {
    hide C.Sound, C.ApplyOne, C.CountRead, C.CountWrite, NoDup;
    var fd := t(e).fd;
    IoKnown(io);
    ghost var was := io.io;
    C.NoCounts();
    C.CountsSnoc(C.EventsOf(was, fd), Entry(t, e));
    r := io.IoAdd(fd, Entry(t, e));
    IoKnown(io);
    if fd < 0 {
      LinkedNoFd(ins, t, io.io, e);
    } else {
      CountsAre(ins, t, was, fd);
      ghost var events := C.EventsOf(io.io, fd);
      assert Listed(was, io.io, fd, events);
      if r == -1 {
        LinkedSame(ins, t, was, io.io);
        assert events == C.EventsOf(was, fd);
      } else {
        LinkedAdd(ins, t, was, io.io, e);
      }
      if r != 1 && old(UpToDate(io.io, io.kernel)) { StillUpToDate(was, io.io, io.kernel, fd, events); }
    }
  }

  lemma LinkedSame(ins: set<Id>, t: Targets, io: map<int, C.IoSlot>, io': map<int, C.IoSlot>)
    requires Linked(ins, t, io) && forall fd :: C.EventsOf(io', fd) == C.EventsOf(io, fd)
    ensures Linked(ins, t, io')
  {
    hide C.EventsOf;
    forall fd ensures NoDup(C.EventsOf(io', fd)) {
      assert NoDup(C.EventsOf(io, fd));
    }
  }

  method Place(s: seq<C.Event>, x: C.Event) returns (i: nat)
    requires x in s
    ensures i < |s| && s[i] == x
  {
    i := 0;
    while s[i] != x
      invariant i < |s| && x in s[i..]
      decreases |s| - i
    {
      i := i + 1;
    }
  }

  /** The fd map forgets an event. */
  method Unwatch(io: C.IoBase, t: Targets, e: Id, ghost ins: set<Id>) returns (r: int)
    requires io.Valid() && Linked(ins, t, io.io) && e in ins
    modifies io
    ensures io.Valid() && io.kernel == old(io.kernel) && r == DelAnswer(ins, t, e)
    ensures Linked(ins - {e}, t, io.io)
    ensures r != 1 && old(UpToDate(io.io, io.kernel)) ==> UpToDate(io.io, io.kernel)
  {
    hide C.Sound, C.ApplyOne, C.CountRead, C.CountWrite, NoDup;
    var fd := t(e).fd;
    IoKnown(io);
    ghost var was := io.io;
    if fd < 0 {
      LinkedNoFd(ins, t, io.io, e);
      return 0;
    }
    assert Entry(t, e) in C.EventsOf(io.io, fd);
    var i := Place(io.io[fd].events, Entry(t, e));
    CountsAre(ins, t, was, fd);
    C.CountsWithout(C.EventsOf(was, fd), i);
    r := io.IoDel(fd, i);
    IoKnown(io);
    ghost var events := C.EventsOf(io.io, fd);
    assert Listed(was, io.io, fd, events);
    LinkedDel(ins, t, was, io.io, e, i);
    if r != 1 && old(UpToDate(io.io, io.kernel)) { StillUpToDate(was, io.io, io.kernel, fd, events); }
  }

  // ------------------------------------------------------------ which events a step adds

  lemma AddInserts(s: State, s': State, e: Id, tv: Option<(Time, Option<nat>)>, now: Time, ioRes: int, inLoop: bool)
    requires UserEvent(s.q, e) && AddDid(s, s', e, tv, now, ioRes, inLoop)
    ensures Inserted(s'.q.ev) == Inserted(s.q.ev) + if Inserts(s.q.ev[e]) && ioRes != -1 then {e} else {}
    ensures s'.phase == s.phase && (!s'.fdChanged ==> !s.fdChanged && !(Inserts(s.q.ev[e]) && ioRes == 1))
  {
    hide NoEarlier, AgainAfter, GetTime, Calm, UserChange, Inserted, Woken;
    if !(Inserts(s.q.ev[e]) && ioRes == -1) {
      ChangeInserts(s.q.ev, s'.q.ev, e, Added(s.q.ev[e], tv, GetTime(s.tvCache, now)));
    }
  }

  lemma ChangeInserts(ev: map<Id, Event>, ev': map<Id, Event>, e: Id, r: Event)
    requires e in ev && !ev[e].internal && UserChange(ev, ev', e, r) && Calm(ev, ev') && (ev[e].inserted ==> r.inserted)
    ensures Inserted(ev') == Inserted(ev) + if r.inserted && !ev[e].inserted then {e} else {}
  {
    forall x | x in ev ensures ev'[x].inserted == if x == e then r.inserted else ev[x].inserted {
    }
  }

  lemma DelInserts(s: State, s': State, e: Id, ioRes: int, inLoop: bool)
    requires UserEvent(s.q, e) && DelDid(s, s', e, ioRes, inLoop)
    ensures Inserted(s'.q.ev) == Inserted(s.q.ev) - {e}
    ensures s'.phase == s.phase && (!s'.fdChanged ==> !s.fdChanged && !(s.q.ev[e].inserted && ioRes == 1))
  {
    hide Woken, QueuesShrink, Inserted, Cleared;
    ClearedInserts(s.q.ev, e);
    if !(s.q.ev[e].inserted && ioRes == 1) {
      assert s'.phase == s.phase && s'.fdChanged == s.fdChanged;
    }
  }

  lemma ClearedInserts(ev: map<Id, Event>, e: Id)
    requires e in ev
    ensures Inserted(ev[e := Cleared(ev[e])]) == Inserted(ev) - {e}
  {
  }

  lemma ActiveInserts(s: State, s': State, e: Id, inLoop: bool)
    requires UserEvent(s.q, e) && ActiveDid(s, s', e, inLoop)
    ensures Inserted(s'.q.ev) == Inserted(s.q.ev) && s'.phase == s.phase && s'.fdChanged == s.fdChanged
  {
    hide Woken, Inserted, Activated;
    ActivatedInserts(s.q.ev, e);
    if s.q.ev[e].active {
      assert s'.phase == s.phase && s'.fdChanged == s.fdChanged;
    }
  }

  lemma ActivatedInserts(ev: map<Id, Event>, e: Id)
    requires e in ev
    ensures Inserted(ev[e := Activated(ev[e], false)]) == Inserted(ev)
  {
  }

  lemma PollEndInserts(s: State, s': State, ready: seq<Id>, now: Time)
    requires PollEndDid(s, s', ready, now)
    ensures Inserted(s'.q.ev) <= Inserted(s.q.ev) && !s'.phase.Blocked?
  {
    hide Orderly;
  }

  /** The persistent event that the loop thread is about to take and to add again. */
  function ToReadd(q: Queues, ph: Phase, again: map<Id, (Time, Option<nat>)>, seen: Time): Option<Id> {
    if ph.InQueue? && ph.p < |q.activequeues| && q.activequeues[ph.p] != [] then
      var e := q.activequeues[ph.p][0];
      if e in q.ev && q.ev[e].persist && !q.ev[e].internal && Inserts(q.ev[e].(active := false))
         && NextTimeout(q.ev[e], e, again, seen, |q.commons|).Some?
      then Some(e) else None
    else None
  }

  /** What the fd map answers for it. */
  ghost function ReaddAnswer(s: State, t: Targets, now: Time): int {
    match ToReadd(s.q, s.phase, s.ioTimeout, GetTime(s.tvCache, now))
    case None => 0
    case Some(e) => AddAnswer(Inserted(s.q.ev), t, e)
  }

  /** The events that the fd map may know once the loop thread has gone on. */
  function Candidates(ins: set<Id>, readd: Option<Id>, ioRes: int): set<Id> {
    if readd.Some? && ioRes != -1 then ins + {readd.value} else ins
  }

  lemma TakeInserts(s: State, s': State, e: Id, ioRes: int, now: Time)
    requires s.phase.InQueue? && s.phase.p < |s.q.activequeues| && s.q.activequeues[s.phase.p] != []
    requires TakeDid(s, s', e, ioRes, now)
    ensures var readd := ToReadd(s.q, s.phase, s.ioTimeout, GetTime(s.tvCache, now));
            Inserted(s'.q.ev) <= Candidates(Inserted(s.q.ev), readd, ioRes)
  {
    hide GetTime, NextTimeout;
    forall x | x in Inserted(s'.q.ev) && x !in Inserted(s.q.ev)
      ensures x == e && ioRes != -1 && ToReadd(s.q, s.phase, s.ioTimeout, GetTime(s.tvCache, now)) == Some(e)
    {
      assert !s.q.ev[x].internal;
    }
  }

  lemma CallbackInserts(s: State, s': State, now: Time)
    requires s.phase.Running? && CallbackDid(s, s', now)
    ensures Inserted(s'.q.ev) <= Inserted(s.q.ev) && !s'.phase.Blocked?
  {
    hide GetTime, Returned, ListFired, Inserted;
    if s.phase.cb.FrontCallback? {
      var i := s.phase.cb.i;
      ListFiredInserts(s.q.ev, s'.q.ev, i, s.q.commons[i].front, GetTime(s.tvCache, now));
    }
  }

  lemma ListFiredInserts(ev: map<Id, Event>, ev': map<Id, Event>, i: nat, front: Id, now: Time)
    requires ListFired(ev, ev', i, front, now)
    ensures Inserted(ev') <= Inserted(ev)
  {
  }

  lemma LoopInserts(s: State, s': State, ioRes: int, now: Time)
    requires LoopDid(s, s', ioRes, now) && !s.phase.Blocked?
    ensures var readd := ToReadd(s.q, s.phase, s.ioTimeout, GetTime(s.tvCache, now));
            Inserted(s'.q.ev) <= Candidates(Inserted(s.q.ev), readd, ioRes) && !s'.phase.Blocked?
  {
    hide GetTime, TakeDid, CallbackDid, ToReadd, Inserted, Chosen, AfterDeferring, AfterDeferred;
    match s.phase {
      case InQueue(p, _) =>
        if s.q.activequeues[p] != [] {
          var e :| TakeDid(s, s', e, ioRes, now);
          TakeInserts(s, s', e, ioRes, now);
          TakenRuns(s, s', e, ioRes, now);
        }
      case Running(_, _, _) => CallbackInserts(s, s', now);
      case _ =>
    }
  }

  lemma TakenRuns(s: State, s': State, e: Id, ioRes: int, now: Time)
    requires s.phase.InQueue? && s.phase.p < |s.q.activequeues| && s.q.activequeues[s.phase.p] != []
    requires TakeDid(s, s', e, ioRes, now)
    ensures s'.phase.Running?
  {
  }

  // ------------------------------------------------------------ the loop with its backend

  /** While the loop thread waits, the kernel watches the wake-up fd, and whatever else it should unless an fd has
      changed since. */
  ghost predicate Watches(ph: Phase, changed: bool, io: map<int, C.IoSlot>, kernel: C.Kernel, wake: int) {
    ph.Blocked? ==> C.Seen(kernel, wake).read && (!changed ==> UpToDate(io, kernel))
  }

  lemma OnlyWakeUp(q: Queues, notifyEvent: Id)
    requires Fresh(q, notifyEvent)
    ensures Inserted(q.ev) == {notifyEvent}
  {
  }

  function Gone(known: set<Id>, ev: map<Id, Event>): (gone: set<Id>)
    ensures gone == known - Inserted(ev)
  {
    set e | e in known && !(e in ev && ev[e].inserted)
  }

  /** Several events are forgotten, in any order. */
  method Forget(io: C.IoBase, t: Targets, gone: set<Id>, ghost known: set<Id>)
    requires io.Valid() && Linked(known, t, io.io) && gone <= known
    modifies io
    ensures io.Valid() && Linked(known - gone, t, io.io) && io.kernel == old(io.kernel)
    decreases gone
  {
    hide Linked, C.Sound, UpToDate;
    if gone == {} {
      assert known - gone == known;
    } else {
      var e :| e in gone;
      var r := Unwatch(io, t, e, known);
      Forget(io, t, gone - {e}, known - {e});
      assert known - {e} - (gone - {e}) == known - gone;
    }
  }

  /** A new fd map, which knows the wake-up fd. */
  method NewMap(t: Targets, notifyEvent: Id) returns (io: C.IoBase)
    ensures fresh(io) && io.Valid() && io.kernel == map[] && Linked({notifyEvent}, t, io.io)
  {
    hide C.Sound, C.CountRead, C.CountWrite;
    io := new C.IoBase();
    assert Linked({}, t, io.io);
    hide Linked;
    var r := Watch(io, t, notifyEvent, {});
    assert {} + {notifyEvent} == {notifyEvent};
  }

  class Loop {
    const base: EventBase
    const io: C.IoBase
    const t: Targets

    ghost predicate Valid()
      reads this, base, io
    {
      && base.Valid() && io.Valid() && Linked(Inserted(base.q.ev), t, io.io)
      && t(base.notifyEvent).fd >= 0 && t(base.notifyEvent).dirs.read
      && Watches(base.phase, base.fdChanged, io.io, io.kernel, t(base.notifyEvent).fd)
    }

    constructor (q: Queues, notifyEvent: Id, cacheTime: bool, t: Targets)
      requires Fresh(q, notifyEvent) && t(notifyEvent).fd >= 0 && t(notifyEvent).dirs.read
      ensures Valid() && fresh(base) && fresh(io) && this.t == t && base.Now() == NewState(q, notifyEvent, cacheTime)
      ensures io.kernel == map[]
    {
      hide StateOk, C.Sound, Linked;
      OnlyWakeUp(q, notifyEvent);
      hide Fresh;
      var b := new EventBase(q, notifyEvent, cacheTime);
      var m := NewMap(t, notifyEvent);
      base, io, this.t := b, m, t;
    }

    /** The fd map forgets the events that are no longer added. */
    method Settle(known: set<Id>)
      requires io.Valid() && Linked(known, t, io.io) && Inserted(base.q.ev) <= known
      modifies io
      ensures io.Valid() && Linked(Inserted(base.q.ev), t, io.io) && io.kernel == old(io.kernel)
    {
      hide Linked, C.Sound, Inserted;
      ghost var ins := Inserted(base.q.ev);
      Forget(io, t, Gone(known, base.q.ev), known);
      assert known - (known - ins) == ins;
    }

    /** `event_add`, with the answer of the fd map. */
    method Add(e: Id, tv: Option<(Time, Option<nat>)>, now: Time, inLoop: bool) returns (r: int, ghost ioRes: int)
      requires Valid() && MayCall(base.phase, inLoop) && UserEvent(base.q, e) && Known(tv, base.q.commons)
      modifies base, io
      ensures Valid() && io.kernel == old(io.kernel)
      ensures ioRes == if Inserts(old(base.q.ev)[e]) then AddAnswer(Inserted(old(base.q.ev)), t, e) else 0
      ensures AddDid(old(base.Now()), base.Now(), e, tv, now, ioRes, inLoop) && r == if ioRes == -1 then -1 else 0
    {
      hide StateOk, C.Sound, Linked, UpToDate, Inserted, AddDid, AddAnswer;
      var res := 0;
      ghost var s := base.Now();
      NotInserted(base.q.ev, e);
      if Inserts(base.q.ev[e]) { res := Watch(io, t, e, Inserted(base.q.ev)); }
      r := base.EventAdd(e, tv, now, res, inLoop);
      AddInserts(s, base.Now(), e, tv, now, res, inLoop);
      ioRes := res;
      assert Inserted(s.q.ev) + {} == Inserted(s.q.ev);
    }

    /** `event_del`. */
    method Remove(e: Id, inLoop: bool) returns (ghost ioRes: int)
      requires Valid() && MayCall(base.phase, inLoop) && UserEvent(base.q, e)
      modifies base, io
      ensures Valid() && io.kernel == old(io.kernel)
      ensures ioRes == if old(base.q.ev)[e].inserted then DelAnswer(Inserted(old(base.q.ev)), t, e) else 0
      ensures DelDid(old(base.Now()), base.Now(), e, ioRes, inLoop)
    {
      hide StateOk, C.Sound, Linked, UpToDate, Inserted, DelDid, DelAnswer;
      var res := 0;
      ghost var s := base.Now();
      NotInserted(base.q.ev, e);
      if base.q.ev[e].inserted { res := Unwatch(io, t, e, Inserted(base.q.ev)); }
      base.EventDel(e, res, inLoop);
      DelInserts(s, base.Now(), e, res, inLoop);
      ioRes := res;
      assert e !in Inserted(s.q.ev) ==> Inserted(s.q.ev) - {e} == Inserted(s.q.ev);
    }

    /** `event_active`. */
    method Activate(e: Id, inLoop: bool)
      requires Valid() && MayCall(base.phase, inLoop) && UserEvent(base.q, e)
      modifies base
      ensures Valid() && ActiveDid(old(base.Now()), base.Now(), e, inLoop)
    {
      hide StateOk, C.Sound, Linked, UpToDate, Inserted, ActiveDid;
      ghost var s := base.Now();
      base.EventActive(e, inLoop);
      ActiveInserts(s, base.Now(), e, inLoop);
    }

    /** The loop thread goes to wait: epoll is told of all changes, and only then the lock is released. */
    method Poll(now: Time, nonblock: bool) returns (r: int)
      requires Valid() && base.phase.Top?
      modifies base, io
      ensures Valid() && PollDid(old(base.Now()), base.Now(), now, nonblock)
      ensures if base.phase.Blocked? then UpToDate(io.io, io.kernel) else io.kernel == old(io.kernel)
    {
      hide StateOk, C.Sound, Linked, Sleeps, NothingLeft, Inserted;
      OkWakeUp(base.Now());
      r := base.PollStart(now, nonblock);
      if base.phase.Blocked? { Flush(io, t, base.notifyEvent, Inserted(base.q.ev)); }
    }

    /** The kernel has reported; exactly the listed events that wait for what it reports become active. */
    method Report(reports: seq<Target>, now: Time) returns (ghost ready: seq<Id>)
      requires Valid() && base.phase.Blocked?
      modifies base, io
      ensures Valid() && PollEndDid(old(base.Now()), base.Now(), ready, now) && io.kernel == old(io.kernel)
      ensures forall e :: e in ready <==> Reported(e, reports, Inserted(old(base.q.ev)), t)
    {
      hide StateOk, C.Sound, Linked, UpToDate, Inserted, PollEndDid, Reported;
      ghost var s := base.Now();
      IoKnown(io);
      var all := Ready(io.io, reports, t, Inserted(base.q.ev));
      MayReport(base.q, all, reports, t);
      var known := KnownIds(base.q.ev);
      base.PollEnd(all, now);
      PollEndInserts(s, base.Now(), all, now);
      Settle(known);
      ready := all;
    }

    /** The loop thread goes on from where it is, outside the wait. */
    method Go(now: Time) returns (ghost ioRes: int)
      requires Valid()
      modifies base, io
      ensures Valid() && io.kernel == old(io.kernel)
      ensures ioRes == ReaddAnswer(old(base.Now()), t, now)
      ensures LoopDid(old(base.Now()), base.Now(), ioRes, now)
    {
      hide StateOk, C.Sound, Linked, UpToDate, Inserted, LoopDid, ToReadd, AddAnswer;
      ghost var s := base.Now();
      if base.phase.Blocked? {
        Waiting(s, now);
        return 0;
      }
      var known, res := KnownIds(base.q.ev), 0;
      var readd := ToReadd(base.q, base.phase, base.ioTimeout, GetTime(base.tvCache, now));
      if readd.Some? {
        ReaddNew(base.q, base.phase, base.ioTimeout, GetTime(base.tvCache, now));
        res := Watch(io, t, readd.value, Inserted(base.q.ev));
      }
      base.LoopStep(res, now);
      LoopInserts(s, base.Now(), res, now);
      Settle(Candidates(known, readd, res));
      ioRes := res;
    }
  }

  lemma NotInserted(ev: map<Id, Event>, e: Id)
    requires e in ev
    ensures e in Inserted(ev) <==> ev[e].inserted
  {
  }

  function KnownIds(ev: map<Id, Event>): (known: set<Id>)
    ensures known == Inserted(ev)
  {
    set e | e in ev && ev[e].inserted
  }

  lemma Waiting(s: State, now: Time)
    requires s.phase.Blocked?
    ensures LoopDid(s, s, 0, now) && ToReadd(s.q, s.phase, s.ioTimeout, GetTime(s.tvCache, now)).None?
  {
  }

  lemma ReaddNew(q: Queues, ph: Phase, again: map<Id, (Time, Option<nat>)>, seen: Time)
    requires ToReadd(q, ph, again, seen).Some?
    ensures ToReadd(q, ph, again, seen).value !in Inserted(q.ev)
  {
  }

  lemma OkWakeUp(s: State)
    requires StateOk(s)
    ensures s.notifyEvent in Inserted(s.q.ev)
  {
    hide QueuesOk, FrontsOk;
  }

  lemma HasReader(events: seq<C.Event>, x: C.Event)
    requires x in events && x.dirs.read
    ensures C.WantedBy(events).read
  {
    if events[0] != x {
      HasReader(events[1..], x);
    }
  }

  /** `epoll_dispatch` up to the wait. */
  method Flush(io: C.IoBase, t: Targets, wake: Id, ghost ins: set<Id>)
    requires io.Valid() && Linked(ins, t, io.io) && wake in ins && t(wake).fd >= 0 && t(wake).dirs.read
    modifies io
    ensures io.Valid() && Linked(ins, t, io.io) && UpToDate(io.io, io.kernel) && C.Seen(io.kernel, t(wake).fd).read
  {
    hide C.Sound, C.CountRead, C.CountWrite, NoDup;
    ghost var was := io.io;
    var ok := io.Dispatch();
    IoKnown(io);
    FlushedAll(io);
    LinkedSame(ins, t, was, io.io);
    HasReader(C.EventsOf(io.io, t(wake).fd), Entry(t, wake));
  }

  lemma FlushedAll(io: C.IoBase)
    requires io.Valid() && forall fd :: fd in io.io ==> C.Seen(io.kernel, fd) == io.io[fd].Wanted()
    ensures UpToDate(io.io, io.kernel)
  {
    IoKnown(io);
    C.SoundRegistered(io.nentries, io.io, io.changes, io.kernel, io.atOnce);
    C.NoCounts();
    hide C.Sound, C.CountRead, C.CountWrite;
  }

  // ------------------------------------------------------------ reports

  predicate Overlap(a: C.Interest, b: C.Interest) {
    (a.read && b.read) || (a.write && b.write)
  }

  /** Some report is about what the event waits for. */
  predicate Reported(e: Id, reports: seq<Target>, ins: set<Id>, t: Targets) {
    && e in ins && t(e).fd >= 0
    && exists k :: 0 <= k < |reports| && reports[k].fd == t(e).fd && Overlap(reports[k].dirs, t(e).dirs)
  }

  lemma MayReport(q: Queues, ready: seq<Id>, reports: seq<Target>, t: Targets)
    requires forall e :: e in ready ==> Reported(e, reports, Inserted(q.ev), t)
    ensures Reportable(q, ready)
  {
    forall k | 0 <= k < |ready| ensures ready[k] in q.ev && q.ev[ready[k]].inserted {
      assert Reported(ready[k], reports, Inserted(q.ev), t);
    }
  }

  /** `evmap_io_active` for one report. */
  method ReadyOn(events: seq<C.Event>, dirs: C.Interest) returns (ready: seq<Id>)
    ensures forall e :: e in ready <==>
              exists k :: 0 <= k < |events| && events[k].id == e && Overlap(dirs, events[k].dirs)
  {
    ready := [];
    for k := 0 to |events|
      invariant forall e :: e in ready <==> exists j :: 0 <= j < k && events[j].id == e && Overlap(dirs, events[j].dirs)
    {
      if Overlap(dirs, events[k].dirs) { ready := ready + [events[k].id]; }
    }
  }

  /** A listed event waits for what is reported if and only if some added event of that fd does. */
  lemma ReportFor(io: map<int, C.IoSlot>, t: Targets, ins: set<Id>, r: Target, e: Id)
    requires Linked(ins, t, io) && forall fd :: fd in io ==> fd >= 0
    ensures (exists k :: 0 <= k < |C.EventsOf(io, r.fd)| && C.EventsOf(io, r.fd)[k].id == e
                         && Overlap(r.dirs, C.EventsOf(io, r.fd)[k].dirs))
            <==> Reported(e, [r], ins, t)
  {
    hide NoDup;
    var events := C.EventsOf(io, r.fd);
    if k :| 0 <= k < |events| && events[k].id == e && Overlap(r.dirs, events[k].dirs) {
      assert events[k] in events && Belongs(events[k], r.fd, ins, t);
      assert [r][0] == r;
    }
    if Reported(e, [r], ins, t) {
      assert Entry(t, e) in events;
    }
  }

  method Ready(io: map<int, C.IoSlot>, reports: seq<Target>, t: Targets, ghost ins: set<Id>) returns (ready: seq<Id>)
    requires Linked(ins, t, io) && forall fd :: fd in io ==> fd >= 0
    ensures forall e :: e in ready <==> Reported(e, reports, ins, t)
  {
    ready := [];
    for k := 0 to |reports|
      invariant forall e :: e in ready <==> Reported(e, reports[..k], ins, t)
    {
      var more := ReadyOn(C.EventsOf(io, reports[k].fd), reports[k].dirs);
      forall e ensures e in ready + more <==> Reported(e, reports[..k + 1], ins, t) {
        ReportFor(io, t, ins, reports[k], e);
        OneMoreReport(e, reports, k, ins, t);
      }
      ready := ready + more;
    }
    assert reports[..|reports|] == reports;
  }

  lemma OneMoreReport(e: Id, reports: seq<Target>, k: nat, ins: set<Id>, t: Targets)
    requires k < |reports|
    ensures Reported(e, reports[..k + 1], ins, t) <==>
              Reported(e, reports[..k], ins, t) || Reported(e, [reports[k]], ins, t)
  {
    var more := reports[..k + 1];
    assert more[..k] == reports[..k] && more[k] == reports[k] == [reports[k]][0];
  }

  // ------------------------------------------------------------ any run

  /** Everything that can happen to a loop with its backend. */
  datatype Act =
    | ActAdd(e: Id, tv: Option<(Time, Option<nat>)>, now: Time, inLoop: bool)
    | ActDel(e: Id, inLoop: bool)
    | ActActive(e: Id, inLoop: bool)
    | ActDefer(inLoop: bool)
    | ActBreak(inLoop: bool)
    | ActStart
    | ActLeave
    | ActPoll(now: Time, nonblock: bool)
    | ActReport(reports: seq<Target>, now: Time)
    | ActFail
    | ActGo(now: Time)

  /** The fd map is told of the event that is added, and of the one that is deleted. */
  predicate Asked(s: State, e: Id, tv: Option<(Time, Option<nat>)>, inLoop: bool) {
    MayCall(s.phase, inLoop) && UserEvent(s.q, e) && Known(tv, s.q.commons) && Inserts(s.q.ev[e])
  }

  predicate AskedToForget(s: State, e: Id, inLoop: bool) {
    MayCall(s.phase, inLoop) && UserEvent(s.q, e) && s.q.ev[e].inserted
  }

  /** The step of the loop that an act amounts to: what the fd map answers, and which events become ready, follows from
      the events that have been added. */
  ghost predicate Amounts(act: Act, step: Step, s: State, t: Targets) {
    match act
    case ActAdd(e, tv, now, inLoop) =>
      step == DoAdd(e, tv, now, if Asked(s, e, tv, inLoop) then AddAnswer(Inserted(s.q.ev), t, e) else 0, inLoop)
    case ActDel(e, inLoop) =>
      step == DoDel(e, if AskedToForget(s, e, inLoop) then DelAnswer(Inserted(s.q.ev), t, e) else 0, inLoop)
    case ActActive(e, inLoop) => step == DoActive(e, inLoop)
    case ActDefer(inLoop) => step == DoDefer(inLoop)
    case ActBreak(inLoop) => step == DoBreak(inLoop)
    case ActStart => step == DoStart
    case ActLeave => step == DoLeave
    case ActPoll(now, nonblock) => step == DoPollStart(now, nonblock)
    case ActReport(reports, now) =>
      && step.DoPollEnd? && step == DoPollEnd(step.ready, now)
      && (s.phase.Blocked? ==> forall e :: e in step.ready <==> Reported(e, reports, Inserted(s.q.ev), t))
    case ActFail => step == DoPollFails
    case ActGo(now) => step == DoLoop(ReaddAnswer(s, t, now), now)
  }

  /** What the added events wait for on an fd. */
  ghost function Awaited(ev: map<Id, Event>, t: Targets, fd: int): C.Interest {
    C.Interest(exists e :: e in ev && ev[e].inserted && t(e).fd == fd && t(e).dirs.read,
               exists e :: e in ev && ev[e].inserted && t(e).fd == fd && t(e).dirs.write)
  }

  /** The kernel watches exactly what the added events wait for. */
  ghost predicate KernelOf(kernel: C.Kernel, ev: map<Id, Event>, t: Targets) {
    && (forall fd :: C.Seen(kernel, fd) == if fd >= 0 then Awaited(ev, t, fd) else C.Interest(false, false))
    && forall fd :: fd in kernel ==> kernel[fd].Any()
  }

  /** There is no other kernel set that does. */
  lemma KernelsAgree(k1: C.Kernel, k2: C.Kernel, ev: map<Id, Event>, t: Targets)
    requires KernelOf(k1, ev, t) && KernelOf(k2, ev, t)
    ensures k1 == k2
  {
    hide Awaited;
    forall fd | fd in k1 || fd in k2 ensures fd in k1 && fd in k2 && k1[fd] == k2[fd] {
      assert C.Seen(k1, fd) == C.Seen(k2, fd);
    }
  }

  /** The kernel set changes only when the loop thread goes to wait, and then to what the added events wait for. */
  ghost predicate Refreshed(act: Act, s: State, s': State, kernel: C.Kernel, kernel': C.Kernel, t: Targets) {
    if act.ActPoll? && s.phase.Top? && s'.phase.Blocked? then KernelOf(kernel', s'.q.ev, t) else kernel' == kernel
  }

  lemma FreshKernel(l: Loop)
    requires l.Valid() && UpToDate(l.io.io, l.io.kernel)
    ensures KernelOf(l.io.kernel, l.base.q.ev, l.t)
  {
    IoKnown(l.io);
    C.NoCounts();
    C.SoundRegistered(l.io.nentries, l.io.io, l.io.changes, l.io.kernel, l.io.atOnce);
    hide StateOk, C.Sound, Linked, Awaited, Inserted, C.CountRead, C.CountWrite;
    var ev, kernel := l.base.q.ev, l.io.kernel;
    forall fd ensures C.Seen(kernel, fd) == if fd >= 0 then Awaited(ev, l.t, fd) else C.Interest(false, false) {
      if fd >= 0 { ListsMean(l.io.io, l.t, ev, fd); }
    }
  }

  method PerformPlain(l: Loop, step: Step)
    requires l.Valid() && (step.DoDefer? || step.DoBreak? || step.DoStart? || step.DoLeave? || step.DoPollFails?)
    modifies l.base
    ensures l.Valid() && Did(step, old(l.base.Now()), l.base.Now())
  {
    hide StateOk, C.Sound, Linked, UpToDate, Inserted, Woken;
    l.base.Perform(step);
  }

  method PerformCall(l: Loop, act: Act) returns (ghost step: Step)
    requires l.Valid() && (act.ActAdd? || act.ActDel? || act.ActActive?)
    modifies l.base, l.io
    ensures l.Valid()
    ensures Leads(act, step, old(l.base.Now()), l.base.Now(), old(l.io.kernel), l.io.kernel, l.t)
  {
    hide Loop.Valid, AddDid, DelDid, ActiveDid, AddAnswer, DelAnswer, Inserted;
    ghost var res := 0;
    match act {
      case ActAdd(e, tv, now, inLoop) =>
        if MayCall(l.base.phase, inLoop) && UserEvent(l.base.q, e) && Known(tv, l.base.q.commons) {
          var r;
          r, res := l.Add(e, tv, now, inLoop);
        }
        step := DoAdd(e, tv, now, res, inLoop);
      case ActDel(e, inLoop) =>
        if MayCall(l.base.phase, inLoop) && UserEvent(l.base.q, e) { res := l.Remove(e, inLoop); }
        step := DoDel(e, res, inLoop);
      case ActActive(e, inLoop) =>
        if MayCall(l.base.phase, inLoop) && UserEvent(l.base.q, e) { l.Activate(e, inLoop); }
        step := DoActive(e, inLoop);
    }
  }

  /** One act; an act that is not possible is skipped. */
  method Perform(l: Loop, act: Act) returns (ghost step: Step)
    requires l.Valid()
    modifies l.base, l.io
    ensures l.Valid()
    ensures Leads(act, step, old(l.base.Now()), l.base.Now(), old(l.io.kernel), l.io.kernel, l.t)
  {
    hide Loop.Valid, Did, Reported, Inserted, AddAnswer, DelAnswer, ReaddAnswer, KernelOf;
    match act {
      case ActDefer(inLoop) => PerformPlain(l, DoDefer(inLoop)); step := DoDefer(inLoop);
      case ActBreak(inLoop) => PerformPlain(l, DoBreak(inLoop)); step := DoBreak(inLoop);
      case ActStart => PerformPlain(l, DoStart); step := DoStart;
      case ActLeave => PerformPlain(l, DoLeave); step := DoLeave;
      case ActFail => PerformPlain(l, DoPollFails); step := DoPollFails;
      case ActPoll(_, _) => step := PerformWait(l, act);
      case ActReport(_, _) => step := PerformWait(l, act);
      case ActGo(_) => step := PerformWait(l, act);
      case _ => step := PerformCall(l, act);
    }
  }

  method PerformWait(l: Loop, act: Act) returns (ghost step: Step)
    requires l.Valid() && (act.ActPoll? || act.ActReport? || act.ActGo?)
    modifies l.base, l.io
    ensures l.Valid()
    ensures Leads(act, step, old(l.base.Now()), l.base.Now(), old(l.io.kernel), l.io.kernel, l.t)
  {
    hide Loop.Valid, PollDid, PollEndDid, LoopDid, Reported, Inserted, UpToDate, ReaddAnswer, KernelOf;
    match act {
      case ActPoll(now, nonblock) =>
        if l.base.phase.Top? {
          var r := l.Poll(now, nonblock);
          if l.base.phase.Blocked? { FreshKernel(l); }
        }
        step := DoPollStart(now, nonblock);
      case ActReport(reports, now) =>
        ghost var ready := [];
        if l.base.phase.Blocked? {
          ready := l.Report(reports, now);
          MayReport(old(l.base.q), ready, reports, l.t);
        }
        step := DoPollEnd(ready, now);
      case ActGo(now) =>
        ghost var res := l.Go(now);
        step := DoLoop(res, now);
    }
  }

  /** While the loop thread waits, the kernel watches the wake-up fd; while nobody has woken it, the kernel watches
      every fd for exactly what the added events wait for. */
  ghost predicate Attentive(s: State, kernel: C.Kernel, t: Targets) {
    && (s.phase.Blocked? ==> C.Seen(kernel, t(s.notifyEvent).fd).read)
    && (s.phase.Blocked? && !s.phase.poll && !s.notifyReadable ==>
          forall fd :: fd >= 0 ==> C.Seen(kernel, fd) == Awaited(s.q.ev, t, fd))
  }

  lemma CountsMean(events: seq<C.Event>)
    ensures C.WantedBy(events).read <==> exists k :: 0 <= k < |events| && events[k].dirs.read
    ensures C.WantedBy(events).write <==> exists k :: 0 <= k < |events| && events[k].dirs.write
  {
    if events != [] {
      CountsMean(events[1..]);
      assert forall k :: 1 <= k < |events| ==> events[k] == events[1..][k - 1];
      assert forall k :: 0 <= k < |events[1..]| ==> events[1..][k] == events[k + 1];
    }
  }

  lemma ListsMean(io: map<int, C.IoSlot>, t: Targets, ev: map<Id, Event>, fd: int)
    requires Linked(Inserted(ev), t, io) && fd >= 0
    ensures C.WantedBy(C.EventsOf(io, fd)) == Awaited(ev, t, fd)
  {
    var events := C.EventsOf(io, fd);
    CountsMean(events);
    hide C.CountRead, C.CountWrite, NoDup, C.EventsOf;
    forall k | 0 <= k < |events| ensures Belongs(events[k], fd, Inserted(ev), t) {
      assert events[k] in events;
    }
    forall e | e in ev && ev[e].inserted && t(e).fd == fd
      ensures exists k :: 0 <= k < |events| && events[k].dirs == t(e).dirs
    {
      assert Entry(t, e) in events;
    }
  }

  lemma AllWatched(l: Loop)
    requires l.Valid()
    ensures InStep(l.base.Now(), l.io.kernel, l.io.io, l.t)
  {
    hide StateOk, C.Sound, Linked, Awaited, C.Seen, C.WantedBy, C.EventsOf, Inserted;
    var s := l.base.Now();
    NoLostWakeup(s);
    if s.phase.Blocked? && !s.phase.poll && !s.notifyReadable {
      forall fd | fd >= 0 ensures C.Seen(l.io.kernel, fd) == Awaited(s.q.ev, l.t, fd) {
        ListsMean(l.io.io, l.t, s.q.ev, fd);
      }
    }
  }

  /** What is so at each moment of a run. */
  ghost predicate InStep(s: State, kernel: C.Kernel, io: map<int, C.IoSlot>, t: Targets) {
    NothingMissed(s) && Attentive(s, kernel, t) && Linked(Inserted(s.q.ev), t, io)
  }

  /** How an act, as a step of the loop, leads from one moment to the next. */
  ghost predicate Leads(act: Act, step: Step, s: State, s': State, kernel: C.Kernel, kernel': C.Kernel, t: Targets) {
    Amounts(act, step, s, t) && Did(step, s, s') && Refreshed(act, s, s', kernel, kernel', t)
  }

  /** Any run of a loop with its backend: each act amounts to a step of the loop, no wake-up is lost, and whenever the
      loop thread sleeps the kernel watches what it should. */
  method Run(q: Queues, notifyEvent: Id, cacheTime: bool, t: Targets, acts: seq<Act>)
    returns (l: Loop, ghost steps: seq<Step>, ghost trace: seq<State>, ghost kernels: seq<C.Kernel>,
             ghost maps: seq<map<int, C.IoSlot>>)
    requires Fresh(q, notifyEvent) && t(notifyEvent).fd >= 0 && t(notifyEvent).dirs.read
    ensures l.Valid() && |steps| == |acts| && |trace| == |kernels| == |maps| == |acts| + 1
    ensures trace[0] == NewState(q, notifyEvent, cacheTime) && kernels[0] == map[]
    ensures l.base.Now() == trace[|acts|] && l.io.kernel == kernels[|acts|] && l.io.io == maps[|acts|]
    ensures forall k :: 0 <= k < |acts| ==>
              Leads(acts[k], steps[k], trace[k], trace[k + 1], kernels[k], kernels[k + 1], t)
    ensures forall k :: 0 <= k <= |acts| ==> InStep(trace[k], kernels[k], maps[k], t)
  {
    hide Loop.Valid, Leads, InStep;
    l := new Loop(q, notifyEvent, cacheTime, t);
    steps, trace, kernels, maps := [], [l.base.Now()], [l.io.kernel], [l.io.io];
    AllWatched(l);
    for k := 0 to |acts|
      invariant l.Valid() && fresh(l.base) && fresh(l.io) && l.t == t && |steps| == k
      invariant |trace| == |kernels| == |maps| == k + 1
      invariant l.base.Now() == trace[k] && l.io.kernel == kernels[k] && l.io.io == maps[k]
      invariant trace[0] == NewState(q, notifyEvent, cacheTime) && kernels[0] == map[]
      invariant forall j :: 0 <= j < k ==>
                  Leads(acts[j], steps[j], trace[j], trace[j + 1], kernels[j], kernels[j + 1], t)
      invariant forall j :: 0 <= j <= k ==> InStep(trace[j], kernels[j], maps[j], t)
    {
      ghost var step := Perform(l, acts[k]);
      AllWatched(l);
      steps, trace, kernels := steps + [step], trace + [l.base.Now()], kernels + [l.io.kernel];
      maps := maps + [l.io.io];
    }
  }
}
