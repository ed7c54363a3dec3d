/**
 The fd map, the changelist and the epoll backend (libevent/evmap.c, libevent/epoll.c), for
 level-triggered events: batching the changes of each fd between two dispatches leaves the kernel with
 the same interest set as applying every change at once.
 */
module Changelist {

  /** A set of directions: EV_READ/EV_WRITE of an event, or EPOLLIN/EPOLLOUT of a registration. */
  datatype Interest = Interest(read: bool, write: bool) {
    predicate Any() {
      read || write
    }
  }

  datatype Change = None | Add | Del

  /** `struct event_change`. */
  datatype FdChange = FdChange(fd: int, before: Interest, read: Change, write: Change)

  // ------------------------------------------------------------ the kernel

  /** The epoll set: the registered fds with what each is watched for. */
  type Kernel = map<int, Interest>

  datatype Op = CtlAdd | CtlMod | CtlDel

  datatype Errno = Ok | Eexist | Enoent

  /** `epoll_ctl`. */
  function EpollCtl(k: Kernel, op: Op, fd: int, events: Interest): (r: (Kernel, Errno)) {
    match op
    case CtlAdd => if fd in k then (k, Eexist) else (k[fd := events], Ok)
    case CtlMod => if fd in k then (k[fd := events], Ok) else (k, Enoent)
    case CtlDel => if fd in k then (k - {fd}, Ok) else (k, Enoent)
  }

  // ------------------------------------------------------------ one change

  /** The operation and event mask that `epoll_apply_one_change` computes; an empty mask means no call. */
  function Choose(ch: FdChange): (r: (Op, Interest)) {
    if ch.read == Add || ch.write == Add then
      var events := Interest(
        ch.read == Add || (ch.read != Del && ch.before.read),
        ch.write == Add || (ch.write != Del && ch.before.write));
      (if ch.before.Any() then CtlMod else CtlAdd, events)
    else if ch.read == Del then
      if ch.write == Del then (CtlDel, Interest(true, true))
      else if ch.before.write then (CtlMod, Interest(false, true))
      else (CtlDel, Interest(true, false))
    else if ch.write == Del then
      if ch.before.read then (CtlMod, Interest(true, false)) else (CtlDel, Interest(false, true))
    else (CtlAdd, Interest(false, false))
  }

  /** `epoll_apply_one_change` with its retries; the flag is false where it returns -1. */
  function ApplyOne(k: Kernel, ch: FdChange): (r: (Kernel, bool)) {
    var (op, events) := Choose(ch);
    if !events.Any() then (k, true)
    else
      var (k1, err) := EpollCtl(k, op, ch.fd, events);
      if err == Ok then (k1, true)
      else if op == CtlMod && err == Enoent then
        var (k2, err2) := EpollCtl(k, CtlAdd, ch.fd, events); (k2, err2 == Ok)
      else if op == CtlAdd && err == Eexist then
        var (k2, err2) := EpollCtl(k, CtlMod, ch.fd, events); (k2, err2 == Ok)
      else (k, op == CtlDel)
  }

  function After(c: Change, before: bool): bool {
    match c
    case None => before
    case Add => true
    case Del => false
  }

  /** What the change record asks for. */
  function Wished(ch: FdChange): Interest {
    Interest(After(ch.read, ch.before.read), After(ch.write, ch.before.write))
  }

  /** The epoll set with `fd` watched for exactly `want`. */
  function Watching(k: Kernel, fd: int, want: Interest): Kernel {
    if want.Any() then k[fd := want] else k - {fd}
  }

  /** Applying a change that changes something never fails and makes the registration exactly what the
      record asks for, whatever the kernel held for the fd: also when it was closed or duplicated. */
  lemma ApplyOneExact(k: Kernel, ch: FdChange)
    requires ch.read != None || ch.write != None
    ensures ApplyOne(k, ch) == (Watching(k, ch.fd, Wished(ch)), true)
  {
    if ch.fd !in k {
      assert k - {ch.fd} == k;
    }
  }

  /** While the kernel holds what the record calls old, the first call to `epoll_ctl` succeeds. */
  lemma FirstCallSucceeds(k: Kernel, ch: FdChange)
    requires Watching(k, ch.fd, ch.before) == k
    requires (ch.read == Del ==> ch.before.read) && (ch.write == Del ==> ch.before.write)
    ensures var (op, events) := Choose(ch); events.Any() ==> EpollCtl(k, op, ch.fd, events).1 == Ok
  {
    assert ch.before.Any() <==> ch.fd in k by {
      if !ch.before.Any() { assert ch.fd !in k - {ch.fd}; }
    }
  }

  // ------------------------------------------------------------ the fd map

  /** The part of `struct event` that the map looks at. */
  datatype Event = Event(id: nat, dirs: Interest)

  /** `struct evmap_io` with the changelist's `idxplus1` behind it. */
  datatype IoSlot = IoSlot(nread: nat, nwrite: nat, idxplus1: nat, events: seq<Event>) {
    /** The directions somebody waits for. */
    function Wanted(): Interest {
      Interest(nread > 0, nwrite > 0)
    }
  }

  const EMPTY_SLOT := IoSlot(0, 0, 0, [])

  function CountRead(events: seq<Event>): nat {
    if events == [] then 0 else (if events[0].dirs.read then 1 else 0) + CountRead(events[1..])
  }

  function CountWrite(events: seq<Event>): nat {
    if events == [] then 0 else (if events[0].dirs.write then 1 else 0) + CountWrite(events[1..])
  }

  lemma {:induction false} CountsAppend(a: seq<Event>, b: seq<Event>)
    ensures CountRead(a + b) == CountRead(a) + CountRead(b)
    ensures CountWrite(a + b) == CountWrite(a) + CountWrite(b)
  {
    if a == [] {
      assert a + b == b;
    } else {
      assert (a + b)[1..] == a[1..] + b;
      CountsAppend(a[1..], b);
    }
  }

  lemma {:induction false} CountsSnoc(a: seq<Event>, ev: Event)
    ensures CountRead(a + [ev]) == CountRead(a) + (if ev.dirs.read then 1 else 0)
    ensures CountWrite(a + [ev]) == CountWrite(a) + (if ev.dirs.write then 1 else 0)
  {
    CountsAppend(a, [ev]);
  }

  /** The list without its element `i` (TAILQ_REMOVE). */
  function Without(events: seq<Event>, i: nat): seq<Event>
    requires i < |events|
  {
    events[..i] + events[i + 1..]
  }

  lemma {:induction false} CountsWithout(events: seq<Event>, i: nat)
    requires i < |events|
    ensures CountRead(Without(events, i)) == CountRead(events) - (if events[i].dirs.read then 1 else 0)
    ensures CountWrite(Without(events, i)) == CountWrite(events) - (if events[i].dirs.write then 1 else 0)
  {
    assert events == events[..i] + ([events[i]] + events[i + 1..]);
    CountsAppend(events[..i], [events[i]] + events[i + 1..]);
    CountsAppend([events[i]], events[i + 1..]);
    CountsAppend(events[..i], events[i + 1..]);
  }

  /** What the kernel watches `fd` for. */
  function Seen(k: Kernel, fd: int): Interest {
    if fd in k then k[fd] else Interest(false, false)
  }

  /** A change takes the kernel from what it watches to what is wanted. */
  predicate Leads(ch: FdChange, seen: Interest, wanted: Interest) {
    && ch.before == seen && Wished(ch) == wanted
    && (ch.read == Del ==> seen.read) && (ch.write == Del ==> seen.write)
  }

  /** The counts are those of the listed events. */
  predicate SlotCounted(slot: IoSlot) {
    && slot.nread <= 0xffff && slot.nwrite <= 0xffff
    && slot.nread == CountRead(slot.events) && slot.nwrite == CountWrite(slot.events)
  }

  /** One fd: its slot points to its only entry in the changelist, if it has one, and what is pending
      leads from what the kernel watches, `seen`, to what is wanted; the backend without a changelist
      watches what is wanted already. */
  ghost predicate FdSound(fd: int, slot: IoSlot, changes: seq<FdChange>, seen: Interest, now: Interest) {
    && SlotCounted(slot) && now == slot.Wanted() && slot.idxplus1 <= |changes|
    && if slot.idxplus1 == 0 then seen == slot.Wanted()
       else changes[slot.idxplus1 - 1].fd == fd && Leads(changes[slot.idxplus1 - 1], seen, slot.Wanted())
  }

  /** Every entry belongs to a slot that points back to it. */
  ghost predicate Indexed(io: map<int, IoSlot>, changes: seq<FdChange>) {
    forall i :: 0 <= i < |changes| ==> changes[i].fd in io && io[changes[i].fd].idxplus1 == i + 1
  }

  /** A registration is never empty, and only for a slot in the map. */
  ghost predicate Registered(io: map<int, IoSlot>, k: Kernel) {
    forall fd :: fd in k ==> fd in io && k[fd].Any()
  }

  /** The invariant of the backend's data: `now` is the set kept by the backend without a changelist. */
  ghost predicate Sound(nentries: nat, io: map<int, IoSlot>, changes: seq<FdChange>, k: Kernel, now: Kernel) {
    && Indexed(io, changes) && Registered(io, k) && Registered(io, now)
    && forall fd :: fd in io ==> 0 <= fd < nentries && FdSound(fd, io[fd], changes, Seen(k, fd), Seen(now, fd))
  }

  /** `epoll_nochangelist_add` and `epoll_nochangelist_del` build these records on the spot. */
  function AddNow(fd: int, before: Interest, dirs: Interest): FdChange {
    FdChange(fd, before, if dirs.read then Add else None, if dirs.write then Add else None)
  }

  function DelNow(fd: int, before: Interest, dirs: Interest): FdChange {
    FdChange(fd, before, if dirs.read then Del else None, if dirs.write then Del else None)
  }

  /** `event_changelist_add` on an entry: an add replaces whatever was there. */
  function AddTo(ch: FdChange, dirs: Interest): FdChange {
    ch.(read := if dirs.read then Add else ch.read, write := if dirs.write then Add else ch.write)
  }

  function DelFrom(c: Change, before: bool): Change {
    if !before && c == Add then None else Del
  }

  /** `event_changelist_del` on an entry: a delete takes back an add of something that was not set. */
  function DelTo(ch: FdChange, dirs: Interest): FdChange {
    ch.(read := if dirs.read then DelFrom(ch.read, ch.before.read) else ch.read,
        write := if dirs.write then DelFrom(ch.write, ch.before.write) else ch.write)
  }

  lemma AddLeads(ch: FdChange, seen: Interest, wanted: Interest, dirs: Interest)
    requires Leads(ch, seen, wanted)
    ensures Leads(AddTo(ch, dirs), seen, Interest(wanted.read || dirs.read, wanted.write || dirs.write))
  {
  }

  lemma DelLeads(ch: FdChange, seen: Interest, wanted: Interest, dirs: Interest)
    requires Leads(ch, seen, wanted) && (dirs.read ==> wanted.read) && (dirs.write ==> wanted.write)
    ensures Leads(DelTo(ch, dirs), seen, Interest(wanted.read && !dirs.read, wanted.write && !dirs.write))
  {
  }

  /** The entry of `fd` in the changelist, found or made. */
  function EntryOf(slot: IoSlot, changes: seq<FdChange>): (idx: nat) {
    if slot.idxplus1 == 0 then |changes| else slot.idxplus1 - 1
  }

  function Entries(slot: IoSlot, changes: seq<FdChange>, fd: int, before: Interest): (r: seq<FdChange>)
    requires slot.idxplus1 <= |changes|
    ensures EntryOf(slot, changes) < |r|
  {
    if slot.idxplus1 == 0 then changes + [FdChange(fd, before, None, None)] else changes
  }

  lemma SlotSound(nentries: nat, io: map<int, IoSlot>, changes: seq<FdChange>, k: Kernel, now: Kernel, fd: int)
    requires Sound(nentries, io, changes, k, now) && fd in io
    ensures SlotCounted(io[fd]) && io[fd].idxplus1 <= |changes|
  {
    assert FdSound(fd, io[fd], changes, Seen(k, fd), Seen(now, fd));
  }

  lemma SoundRegistered(nentries: nat, io: map<int, IoSlot>, changes: seq<FdChange>, k: Kernel, now: Kernel)
    requires Sound(nentries, io, changes, k, now)
    ensures Registered(io, k) && Applied(io, k, k, 0)
  {
  }

  lemma FreshSound(nentries: nat, io: map<int, IoSlot>, changes: seq<FdChange>, k: Kernel, now: Kernel, fd: int)
    requires Sound(nentries, io, changes, k, now) && fd !in io && 0 <= fd < nentries
    ensures Sound(nentries, io[fd := EMPTY_SLOT], changes, k, now)
  {
    assert FdSound(fd, EMPTY_SLOT, changes, Seen(k, fd), Seen(now, fd));
    hide FdSound;
  }

  /** Counts and events change, but not which directions are wanted. */
  lemma QuietSound(nentries: nat, io: map<int, IoSlot>, changes: seq<FdChange>, k: Kernel, now: Kernel, fd: int,
                   slot: IoSlot)
    requires Sound(nentries, io, changes, k, now) && fd in io
    requires SlotCounted(slot) && slot.idxplus1 == io[fd].idxplus1 && slot.Wanted() == io[fd].Wanted()
    ensures Sound(nentries, io[fd := slot], changes, k, now)
  {
    assert FdSound(fd, slot, changes, Seen(k, fd), Seen(now, fd));
    hide FdSound;
  }

  /** An fd does not notice the amendment of an entry that is not its own. */
  lemma OtherFd(fd: int, g: int, slot: IoSlot, other: IoSlot, changes: seq<FdChange>, before: Interest, ch: FdChange,
                seen: Interest, now: Interest)
    requires FdSound(g, other, changes, seen, now) && g != fd && slot.idxplus1 <= |changes|
    requires slot.idxplus1 > 0 ==> changes[slot.idxplus1 - 1].fd == fd
    ensures FdSound(g, other, Entries(slot, changes, fd, before)[EntryOf(slot, changes) := ch], seen, now)
  {
  }

  /** The wish for `fd` changes by a change that leads to it, both in its entry and at once. */
  lemma LoudSound(nentries: nat, io: map<int, IoSlot>, changes: seq<FdChange>, k: Kernel, now: Kernel,
                  fd: int, slot: IoSlot, ch: FdChange)
    requires Sound(nentries, io, changes, k, now) && fd in io && ch.fd == fd
    requires SlotCounted(slot) && slot.idxplus1 == EntryOf(io[fd], changes) + 1
    requires Leads(ch, Seen(k, fd), slot.Wanted())
    ensures io[fd].idxplus1 <= |changes|
    ensures var idx, entries := EntryOf(io[fd], changes), Entries(io[fd], changes, fd, io[fd].Wanted());
            Sound(nentries, io[fd := slot], entries[idx := ch], k, Watching(now, fd, slot.Wanted()))
  {
    assert FdSound(fd, io[fd], changes, Seen(k, fd), Seen(now, fd));
    var idx, entries := EntryOf(io[fd], changes), Entries(io[fd], changes, fd, io[fd].Wanted());
    var io', changes', now' := io[fd := slot], entries[idx := ch], Watching(now, fd, slot.Wanted());
    assert FdSound(fd, slot, changes', Seen(k, fd), Seen(now', fd));
    forall g | g in io && g != fd ensures FdSound(g, io[g], changes', Seen(k, g), Seen(now', g)) {
      OtherFd(fd, g, io[fd], io[g], changes, io[fd].Wanted(), ch, Seen(k, g), Seen(now, g));
    }
    hide FdSound;
  }

  lemma AddSound(nentries: nat, io: map<int, IoSlot>, changes: seq<FdChange>, k: Kernel, now: Kernel,
                 fd: int, dirs: Interest, slot: IoSlot)
    requires Sound(nentries, io, changes, k, now) && fd in io && dirs.Any() && SlotCounted(slot)
    requires var w := io[fd].Wanted(); slot.Wanted() == Interest(w.read || dirs.read, w.write || dirs.write)
    ensures io[fd].idxplus1 <= |changes|
    ensures var before, idx := io[fd].Wanted(), EntryOf(io[fd], changes);
            var entries := Entries(io[fd], changes, fd, before);
            Sound(nentries, io[fd := slot.(idxplus1 := idx + 1)],
                  entries[idx := AddTo(entries[idx], dirs)], k, ApplyOne(now, AddNow(fd, before, dirs)).0)
  {
    assert FdSound(fd, io[fd], changes, Seen(k, fd), Seen(now, fd));
    var before, idx := io[fd].Wanted(), EntryOf(io[fd], changes);
    var entries := Entries(io[fd], changes, fd, before);
    AddLeads(entries[idx], Seen(k, fd), before, dirs);
    hide Sound, Leads;
    LoudSound(nentries, io, changes, k, now, fd, slot.(idxplus1 := idx + 1), AddTo(entries[idx], dirs));
    ApplyOneExact(now, AddNow(fd, before, dirs));
  }

  lemma DelSound(nentries: nat, io: map<int, IoSlot>, changes: seq<FdChange>, k: Kernel, now: Kernel,
                 fd: int, dirs: Interest, slot: IoSlot)
    requires Sound(nentries, io, changes, k, now) && fd in io && dirs.Any() && SlotCounted(slot)
    requires var w := io[fd].Wanted();
             && (dirs.read ==> w.read) && (dirs.write ==> w.write)
             && slot.Wanted() == Interest(w.read && !dirs.read, w.write && !dirs.write)
    ensures io[fd].idxplus1 <= |changes|
    ensures var before, idx := io[fd].Wanted(), EntryOf(io[fd], changes);
            var entries := Entries(io[fd], changes, fd, before);
            Sound(nentries, io[fd := slot.(idxplus1 := idx + 1)],
                  entries[idx := DelTo(entries[idx], dirs)], k, ApplyOne(now, DelNow(fd, before, dirs)).0)
  {
    assert FdSound(fd, io[fd], changes, Seen(k, fd), Seen(now, fd));
    var before, idx := io[fd].Wanted(), EntryOf(io[fd], changes);
    var entries := Entries(io[fd], changes, fd, before);
    DelLeads(entries[idx], Seen(k, fd), before, dirs);
    hide Sound, Leads;
    LoudSound(nentries, io, changes, k, now, fd, slot.(idxplus1 := idx + 1), DelTo(entries[idx], dirs));
    ApplyOneExact(now, DelNow(fd, before, dirs));
  }

  /** The first `n` entries have been applied to what the kernel held, `k0`. */
  ghost predicate Applied(io: map<int, IoSlot>, k0: Kernel, k: Kernel, n: nat) {
    forall fd :: fd in io ==>
      Seen(k, fd) == if 0 < io[fd].idxplus1 <= n then io[fd].Wanted() else Seen(k0, fd)
  }

  lemma ApplyNext(nentries: nat, io: map<int, IoSlot>, changes: seq<FdChange>, k0: Kernel, now: Kernel,
                  k: Kernel, n: nat)
    requires Sound(nentries, io, changes, k0, now) && n < |changes|
    requires Applied(io, k0, k, n) && Registered(io, k)
    ensures var (k', ok) := ApplyOne(k, changes[n]); ok && Applied(io, k0, k', n + 1) && Registered(io, k')
    ensures var (op, events) := Choose(changes[n]); events.Any() ==> EpollCtl(k, op, changes[n].fd, events).1 == Ok
  {
    var ch := changes[n];
    assert FdSound(ch.fd, io[ch.fd], changes, Seen(k0, ch.fd), Seen(now, ch.fd));
    assert Leads(ch, Seen(k, ch.fd), io[ch.fd].Wanted());
    assert Watching(k, ch.fd, ch.before) == k;
    FirstCallSucceeds(k, ch);
    assert forall fd :: fd in io && fd != ch.fd ==> io[fd].idxplus1 != n + 1 by {
      forall fd | fd in io && fd != ch.fd ensures io[fd].idxplus1 != n + 1 {
        assert FdSound(fd, io[fd], changes, Seen(k0, fd), Seen(now, fd));
      }
    }
    if ch.read != None || ch.write != None {
      ApplyOneExact(k, ch);
    }
    hide FdSound, Leads, ApplyOne, Choose;
  }

  /** When all entries have been applied, the two backends agree. */
  lemma AppliedAll(nentries: nat, io: map<int, IoSlot>, changes: seq<FdChange>, k0: Kernel, now: Kernel, k: Kernel)
    requires Sound(nentries, io, changes, k0, now)
    requires Applied(io, k0, k, |changes|) && Registered(io, k)
    ensures k == now && forall fd :: fd in io ==> Seen(k, fd) == io[fd].Wanted()
  {
    forall fd | fd in io ensures Seen(k, fd) == io[fd].Wanted() == Seen(now, fd) {
      assert FdSound(fd, io[fd], changes, Seen(k0, fd), Seen(now, fd));
    }
    forall fd | fd in k || fd in now ensures fd in k && fd in now && k[fd] == now[fd] {
      assert Seen(k, fd) == Seen(now, fd);
    }
  }

  /** The directions of `a` that are not in `b`. */
  function Minus(a: Interest, b: Interest): Interest {
    Interest(a.read && !b.read, a.write && !b.write)
  }

  function Doubled(n: nat, k: nat): nat {
    if k == 0 then n else 2 * Doubled(n, k - 1)
  }

  /** After `k` doublings of the old size, or of 32, the size is above the slot, and no sooner. */
  predicate FirstAbove(was: nat, k: nat, slot: nat, size: nat) {
    var first := if was > 0 then was else 32;
    size == Doubled(first, k) > slot && (k > 0 ==> Doubled(first, k - 1) <= slot)
  }

  class IoBase {
    /** Slots allocated in the fd map, and those constructed. */
    var nentries: nat
    var io: map<int, IoSlot>
    /** `changelist.changes`, up to `n_changes`. */
    var changes: seq<FdChange>
    var kernel: Kernel
    /** The epoll set that the backend without a changelist would have. */
    ghost var atOnce: Kernel

    ghost predicate Valid()
      reads this
    {
      Sound(nentries, io, changes, kernel, atOnce)
    }

    constructor ()
      ensures Valid() && io == map[] && kernel == map[] && atOnce == map[]
    {
      nentries, io, changes, kernel, atOnce := 0, map[], [], map[], map[];
    }

    /** `evmap_make_space`: the size, or 32 where there is none, doubled as seldom as will do. */
    method MakeSpace(slot: nat)
      modifies this`nentries
      ensures exists k: nat :: FirstAbove(old(nentries), k, slot, nentries)
      ensures nentries > slot && nentries >= old(nentries)
    {
      ghost var k := 0;
      ghost var first := if nentries > 0 then nentries else 32;
      if nentries <= slot {
        var n := if nentries > 0 then nentries else 32;
        while n <= slot
          invariant n == Doubled(first, k) && n >= first && (k > 0 ==> Doubled(first, k - 1) <= slot)
          decreases slot + 1 - n
        {
          n := n * 2;
          k := k + 1;
        }
        nentries := n;
      }
      assert FirstAbove(old(nentries), k, slot, nentries);
    }

    /** `event_changelist_get_or_construct`. */
    method GetOrConstruct(fd: int, before: Interest) returns (idx: nat)
      requires fd in io && io[fd].idxplus1 <= |changes|
      modifies this`io, this`changes
      ensures idx == EntryOf(old(io)[fd], old(changes))
      ensures io == old(io)[fd := old(io)[fd].(idxplus1 := idx + 1)]
      ensures changes == Entries(old(io)[fd], old(changes), fd, before)
    {
      if io[fd].idxplus1 == 0 {
        idx := |changes|;
        io := io[fd := io[fd].(idxplus1 := idx + 1)];
        changes := changes + [FdChange(fd, before, None, None)];
      } else {
        idx := io[fd].idxplus1 - 1;
      }
    }

    /** `event_changelist_add`. */
    method ChangelistAdd(fd: int, before: Interest, dirs: Interest)
      requires fd in io && io[fd].idxplus1 <= |changes|
      modifies this`io, this`changes
      ensures var idx, entries := EntryOf(old(io)[fd], old(changes)), Entries(old(io)[fd], old(changes), fd, before);
              && io == old(io)[fd := old(io)[fd].(idxplus1 := idx + 1)]
              && changes == entries[idx := AddTo(entries[idx], dirs)]
    {
      var idx := GetOrConstruct(fd, before);
      changes := changes[idx := AddTo(changes[idx], dirs)];
    }

    /** `event_changelist_del`. */
    method ChangelistDel(fd: int, before: Interest, dirs: Interest)
      requires fd in io && io[fd].idxplus1 <= |changes|
      modifies this`io, this`changes
      ensures var idx, entries := EntryOf(old(io)[fd], old(changes)), Entries(old(io)[fd], old(changes), fd, before);
              && io == old(io)[fd := old(io)[fd].(idxplus1 := idx + 1)]
              && changes == entries[idx := DelTo(entries[idx], dirs)]
    {
      var idx := GetOrConstruct(fd, before);
      changes := changes[idx := DelTo(changes[idx], dirs)];
    }

    /** The slot of `fd`, constructed if need be (GET_IO_SLOT_AND_CTOR). */
    method GetSlot(fd: nat) returns (slot: IoSlot)
      requires Valid()
      modifies this`nentries, this`io
      ensures Valid() && io == old(io)[fd := slot] && SlotCounted(slot) && slot.idxplus1 <= |changes|
      ensures slot == if fd in old(io) then old(io)[fd] else EMPTY_SLOT
    {
      if fd >= nentries { MakeSpace(fd); }
      if fd !in io {
        FreshSound(nentries, io, changes, kernel, atOnce, fd);
        io := io[fd := EMPTY_SLOT];
      }
      slot := io[fd];
      SlotSound(nentries, io, changes, kernel, atOnce, fd);
    }

    /** `evmap_io_add`: -1 when a count would no longer fit, 1 when the backend was told. */
    method IoAdd(fd: int, ev: Event) returns (r: int)
      requires Valid()
      modifies this
      ensures Valid() && kernel == old(kernel)
      ensures fd < 0 ==> r == 0 && io == old(io) && changes == old(changes)
      ensures fd >= 0 ==>
                var slot := if fd in old(io) then old(io)[fd] else EMPTY_SLOT;
                var crowded := (ev.dirs.read && slot.nread == 0xffff) || (ev.dirs.write && slot.nwrite == 0xffff);
                && fd in io && io == old(io)[fd := io[fd]]
                && if crowded then r == -1 && changes == old(changes) && io[fd] == slot
                   else io[fd].events == slot.events + [ev] && r == (if io[fd].Wanted() != slot.Wanted() then 1 else 0)
      ensures atOnce == if r != 1 then old(atOnce)
                        else var before := if fd in old(io) then old(io)[fd].Wanted() else Interest(false, false);
                             ApplyOne(old(atOnce), AddNow(fd, before, Minus(io[fd].Wanted(), before))).0
    {
      hide Sound, CountRead, CountWrite, AddTo, Entries, EntryOf, AddNow, ApplyOne;
      if fd < 0 { return 0; }
      var slot := GetSlot(fd);
      var before := slot.Wanted();
      var nread := slot.nread + if ev.dirs.read then 1 else 0;
      var nwrite := slot.nwrite + if ev.dirs.write then 1 else 0;
      var res := Interest(ev.dirs.read && nread == 1, ev.dirs.write && nwrite == 1);
      if nread > 0xffff || nwrite > 0xffff { return -1; }
      var slot' := slot.(nread := nread, nwrite := nwrite, events := slot.events + [ev]);
      CountsSnoc(slot.events, ev);
      if !res.Any() {
        QuietSound(nentries, io, changes, kernel, atOnce, fd, slot');
        io := io[fd := slot'];
        return 0;
      }
      ghost var io0 := io;
      AddSound(nentries, io, changes, kernel, atOnce, fd, res, slot');
      ChangelistAdd(fd, before, res);
      atOnce := ApplyOne(atOnce, AddNow(fd, before, res)).0;
      io := io[fd := slot'.(idxplus1 := io[fd].idxplus1)];
      assert io == io0[fd := io[fd]];
      return 1;
    }

    /** `evmap_io_del` of the listed event at place `i`, which its own links tell: 1 when the backend was told. */
    method IoDel(fd: int, i: nat) returns (r: int)
      requires Valid()
      requires 0 <= fd < nentries ==> fd in io && i < |io[fd].events|
      modifies this
      ensures Valid() && kernel == old(kernel)
      ensures fd < 0 ==> r == 0
      ensures fd >= old(nentries) ==> r == -1
      ensures !(0 <= fd < old(nentries)) ==> io == old(io) && changes == old(changes)
      ensures 0 <= fd < old(nentries) ==>
                && fd in io && io == old(io)[fd := io[fd]]
                && io[fd].events == Without(old(io)[fd].events, i)
                && r == (if io[fd].Wanted() != old(io)[fd].Wanted() then 1 else 0)
      ensures atOnce == if r != 1 then old(atOnce)
                        else var before := old(io)[fd].Wanted();
                             ApplyOne(old(atOnce), DelNow(fd, before, Minus(before, io[fd].Wanted()))).0
    {
      hide Sound, CountRead, CountWrite, DelTo, Entries, EntryOf, DelNow, ApplyOne;
      if fd < 0 { return 0; }
      if fd >= nentries { return -1; }
      var slot, ev := io[fd], io[fd].events[i];
      SlotSound(nentries, io, changes, kernel, atOnce, fd);
      CountsWithout(slot.events, i);
      var before := slot.Wanted();
      var nread := slot.nread - if ev.dirs.read then 1 else 0;
      var nwrite := slot.nwrite - if ev.dirs.write then 1 else 0;
      var res := Interest(ev.dirs.read && nread == 0, ev.dirs.write && nwrite == 0);
      var slot' := slot.(nread := nread, nwrite := nwrite, events := Without(slot.events, i));
      if !res.Any() {
        QuietSound(nentries, io, changes, kernel, atOnce, fd, slot');
        io := io[fd := slot'];
        return 0;
      }
      ghost var io0 := io;
      DelSound(nentries, io, changes, kernel, atOnce, fd, res, slot');
      ChangelistDel(fd, before, res);
      atOnce := ApplyOne(atOnce, DelNow(fd, before, res)).0;
      io := io[fd := slot'.(idxplus1 := io[fd].idxplus1)];
      assert io == io0[fd := io[fd]];
      return 1;
    }
  
    /** `epoll_apply_changes`: no change fails, and every first call to `epoll_ctl` succeeds. */
    method ApplyChanges() returns (ok: bool)
      requires Valid()
      modifies this`kernel
      ensures ok && kernel == atOnce && Registered(io, kernel)
      ensures forall fd :: fd in io ==> Seen(kernel, fd) == io[fd].Wanted()
    {
      hide Sound, ApplyOne, Choose;
      ok := true;
      var i := 0;
      SoundRegistered(nentries, io, changes, kernel, atOnce);
      while i < |changes|
        invariant 0 <= i <= |changes| && ok
        invariant Applied(io, old(kernel), kernel, i) && Registered(io, kernel)
      {
        ApplyNext(nentries, io, changes, old(kernel), atOnce, kernel, i);
        var (k, applied) := ApplyOne(kernel, changes[i]);
        kernel := k;
        if !applied { ok := false; }
        i := i + 1;
      }
      AppliedAll(nentries, io, changes, old(kernel), atOnce, kernel);
    }

    /** `event_changelist_remove_all`. */
    method RemoveAll()
      requires Indexed(io, changes) && forall fd :: fd in io ==> io[fd].idxplus1 <= |changes|
      requires forall fd :: fd in io && io[fd].idxplus1 > 0 ==> changes[io[fd].idxplus1 - 1].fd == fd
      modifies this`io, this`changes
      ensures changes == [] && io.Keys == old(io).Keys
      ensures forall fd :: fd in io ==> io[fd] == old(io)[fd].(idxplus1 := 0)
    {
      var i := 0;
      while i < |changes|
        invariant 0 <= i <= |changes| && io.Keys == old(io).Keys && changes == old(changes)
        invariant forall fd :: fd in io ==>
                    io[fd] == if old(io)[fd].idxplus1 <= i then old(io)[fd].(idxplus1 := 0) else old(io)[fd]
      {
        var fd := changes[i].fd;
        assert io[fd].idxplus1 == i + 1;
        io := io[fd := io[fd].(idxplus1 := 0)];
        i := i + 1;
      }
      changes := [];
    }

    /** The start of `epoll_dispatch`: the kernel now watches what the backend without a changelist has
        been watching all along, which is what the counts ask for. */
    method Dispatch() returns (ok: bool)
      requires Valid()
      modifies this
      ensures Valid() && ok && changes == []
      ensures kernel == atOnce == old(atOnce)
      ensures io.Keys == old(io).Keys && forall fd :: fd in io ==>
                io[fd].events == old(io)[fd].events && Seen(kernel, fd) == io[fd].Wanted() == old(io)[fd].Wanted()
    {
      ok := ApplyChanges();
      forall fd | fd in io ensures FdSound(fd, io[fd], changes, Seen(old(kernel), fd), Seen(atOnce, fd)) {}
      RemoveAll();
    }
  }

  /** What may happen to the backend: events are added and deleted, and from time to time it polls. */
  datatype Act = ActAdd(fd: int, ev: Event) | ActDel(fd: int, i: nat) | ActDispatch

  // ------------------------------------------------------------ the backend without a changelist

  /** The events of each fd, and an epoll set to which every change is applied when it is made. */
  datatype Direct = Direct(lists: map<int, seq<Event>>, kernel: Kernel) {
    function Events(fd: int): seq<Event> {
      if fd in lists then lists[fd] else []
    }
  }

  /** What a list of events waits for. */
  function WantedBy(events: seq<Event>): Interest {
    Interest(CountRead(events) > 0, CountWrite(events) > 0)
  }

  function DirectAdd(d: Direct, fd: int, ev: Event): Direct {
    var events := d.Events(fd);
    if fd < 0 || CountRead(events + [ev]) > 0xffff || CountWrite(events + [ev]) > 0xffff then d
    else
      var before, after := WantedBy(events), WantedBy(events + [ev]);
      Direct(d.lists[fd := events + [ev]],
             if after == before then d.kernel else ApplyOne(d.kernel, AddNow(fd, before, Minus(after, before))).0)
  }

  function DirectDel(d: Direct, fd: int, i: nat): Direct {
    var events := d.Events(fd);
    if i >= |events| then d
    else
      var before, after := WantedBy(events), WantedBy(Without(events, i));
      Direct(d.lists[fd := Without(events, i)],
             if after == before then d.kernel else ApplyOne(d.kernel, DelNow(fd, before, Minus(before, after))).0)
  }

  function DirectStep(d: Direct, act: Act): Direct {
    match act
    case ActAdd(fd, ev) => DirectAdd(d, fd, ev)
    case ActDel(fd, i) => DirectDel(d, fd, i)
    case ActDispatch => d
  }

  function DirectRun(acts: seq<Act>): Direct {
    if acts == [] then Direct(map[], map[])
    else DirectStep(DirectRun(acts[..|acts| - 1]), acts[|acts| - 1])
  }

  /** The run up to its last poll. */
  function Polled(acts: seq<Act>): seq<Act> {
    if acts == [] || acts[|acts| - 1] == ActDispatch then acts else Polled(acts[..|acts| - 1])
  }

  function EventsOf(io: map<int, IoSlot>, fd: int): seq<Event> {
    if fd in io then io[fd].events else []
  }

  /** The backend lists the same events, and its ghost is the set that is changed at once. */
  ghost predicate Follows(io: map<int, IoSlot>, atOnce: Kernel, d: Direct) {
    atOnce == d.kernel && forall fd :: EventsOf(io, fd) == d.Events(fd)
  }

  lemma WantedOf(base: IoBase, fd: int)
    requires base.Valid() && fd in base.io
    ensures base.io[fd].Wanted() == WantedBy(base.io[fd].events) && SlotCounted(base.io[fd]) && 0 <= fd < base.nentries
  {
    SlotSound(base.nentries, base.io, base.changes, base.kernel, base.atOnce, fd);
  }

  method AddFollows(base: IoBase, fd: int, ev: Event, ghost d: Direct) returns (r: int)
    requires base.Valid() && Follows(base.io, base.atOnce, d)
    modifies base
    ensures base.Valid() && base.kernel == old(base.kernel) && Follows(base.io, base.atOnce, DirectAdd(d, fd, ev))
  {
    hide Sound, ApplyOne, CountRead, CountWrite;
    ghost var io := base.io;
    assert EventsOf(io, fd) == d.Events(fd);
    if fd in base.io { WantedOf(base, fd); }
    CountsSnoc(d.Events(fd), ev);
    NoCounts();
    r := base.IoAdd(fd, ev);
    if fd >= 0 { WantedOf(base, fd); }
    forall g ensures EventsOf(base.io, g) == DirectAdd(d, fd, ev).Events(g) {
      assert EventsOf(io, g) == d.Events(g);
    }
  }

  lemma NoCounts()
    ensures CountRead([]) == CountWrite([]) == 0
  {
  }

  method DelFollows(base: IoBase, fd: int, i: nat, ghost d: Direct) returns (r: int)
    requires base.Valid() && Follows(base.io, base.atOnce, d)
    requires fd in base.io && i < |base.io[fd].events|
    modifies base
    ensures base.Valid() && base.kernel == old(base.kernel) && Follows(base.io, base.atOnce, DirectDel(d, fd, i))
  {
    hide Sound, ApplyOne, CountRead, CountWrite;
    ghost var io := base.io;
    assert EventsOf(io, fd) == d.Events(fd);
    WantedOf(base, fd);
    r := base.IoDel(fd, i);
    WantedOf(base, fd);
    forall g ensures EventsOf(base.io, g) == DirectDel(d, fd, i).Events(g) {
      assert EventsOf(io, g) == d.Events(g);
    }
  }

  /** One act, beside the backend without a changelist; the deletion of an event that is not listed is skipped. */
  method Perform(base: IoBase, act: Act, ghost d: Direct)
    requires base.Valid() && Follows(base.io, base.atOnce, d)
    modifies base
    ensures base.Valid() && Follows(base.io, base.atOnce, DirectStep(d, act))
    ensures base.kernel == if act == ActDispatch then d.kernel else old(base.kernel)
  {
    hide Sound, DirectAdd, DirectDel;
    match act {
      case ActAdd(fd, ev) => var r := AddFollows(base, fd, ev, d);
      case ActDel(fd, i) =>
        if fd in base.io && i < |base.io[fd].events| {
          var r := DelFollows(base, fd, i, d);
        } else {
          NothingToDelete(d, fd, i);
        }
      case ActDispatch => var ok := base.Dispatch();
    }
  }

  lemma NothingToDelete(d: Direct, fd: int, i: nat)
    requires i >= |d.Events(fd)|
    ensures DirectDel(d, fd, i) == d
  {
  }

  /** Any run: the listed events are those of the backend without a changelist, and the kernel set is the one that this
      backend had at the last poll, after applying every change at once. */
  method Run(acts: seq<Act>) returns (base: IoBase)
    ensures fresh(base) && base.Valid()
    ensures forall fd :: EventsOf(base.io, fd) == DirectRun(acts).Events(fd)
    ensures base.kernel == DirectRun(Polled(acts)).kernel
  {
    assert acts[..0] == [] && Polled([]) == [] && DirectRun([]) == Direct(map[], map[]);
    hide Sound, DirectAdd, DirectDel, DirectRun, Polled, EventsOf;
    base := new IoBase();
    NoEvents(base.atOnce);
    for n := 0 to |acts|
      invariant fresh(base) && base.Valid() && Follows(base.io, base.atOnce, DirectRun(acts[..n]))
      invariant base.kernel == DirectRun(Polled(acts[..n])).kernel
    {
      Perform(base, acts[n], DirectRun(acts[..n]));
      Unpolled(acts[..n], acts[n]);
      assert acts[..n + 1] == acts[..n] + [acts[n]];
    }
    assert acts[..|acts|] == acts;
  }

  lemma NoEvents(k: Kernel)
    ensures Follows(map[], k, Direct(map[], k))
  {
  }

  lemma Unpolled(acts: seq<Act>, act: Act)
    ensures Polled(acts + [act]) == if act == ActDispatch then acts + [act] else Polled(acts)
    ensures DirectRun(acts + [act]) == DirectStep(DirectRun(acts), act)
  {
    assert (acts + [act])[..|acts|] == acts;
  }

  /** The set holds what the lists ask for, and no registration is empty. */
  ghost predicate Exact(d: Direct) {
    && (forall fd :: Seen(d.kernel, fd) == WantedBy(d.Events(fd)))
    && forall fd :: fd in d.kernel ==> d.kernel[fd].Any()
  }

  /** The set that is changed at once is always what the lists ask for. */
  lemma {:induction false} DirectExact(acts: seq<Act>)
    ensures Exact(DirectRun(acts))
  {
    hide CountRead, CountWrite;
    NoCounts();
    if acts != [] {
      var act := acts[|acts| - 1];
      var d := DirectRun(acts[..|acts| - 1]);
      DirectExact(acts[..|acts| - 1]);
      hide Exact, DirectAdd, DirectDel;
      match act {
        case ActAdd(fd, ev) => AddExact(d, fd, ev);
        case ActDel(fd, i) => DelExact(d, fd, i);
        case ActDispatch =>
      }
    }
  }

  lemma AddExact(d: Direct, fd: int, ev: Event)
    requires Exact(d)
    ensures Exact(DirectAdd(d, fd, ev))
  {
    hide CountRead, CountWrite, ApplyOne;
    var before, after := WantedBy(d.Events(fd)), WantedBy(d.Events(fd) + [ev]);
    CountsSnoc(d.Events(fd), ev);
    if after != before {
      var ch := AddNow(fd, before, Minus(after, before));
      ApplyOneExact(d.kernel, ch);
      assert Wished(ch) == after;
    }
  }

  lemma DelExact(d: Direct, fd: int, i: nat)
    requires Exact(d)
    ensures Exact(DirectDel(d, fd, i))
  {
    hide CountRead, CountWrite, ApplyOne;
    if i < |d.Events(fd)| {
      var before, after := WantedBy(d.Events(fd)), WantedBy(Without(d.Events(fd), i));
      CountsWithout(d.Events(fd), i);
      if after != before {
        var ch := DelNow(fd, before, Minus(before, after));
        ApplyOneExact(d.kernel, ch);
        assert Wished(ch) == after;
      }
      var d' := DirectDel(d, fd, i);
      assert d'.kernel == if after == before then d.kernel else Watching(d.kernel, fd, after);
      forall g ensures Seen(d'.kernel, g) == WantedBy(d'.Events(g)) {
        assert Seen(d.kernel, g) == WantedBy(d.Events(g));
      }
      assert forall g :: g in d'.kernel ==> d'.kernel[g].Any();
    }
  }
}
