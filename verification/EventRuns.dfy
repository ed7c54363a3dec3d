/** What whole runs of an event base have to do with the events in it. */
module EventRuns {
  import opened Common
  import opened Lists
  import opened EventQueues
  import opened EventTimeouts
  import opened EventLoop

  /** The loop thread is about to take an event. */
  predicate AtEvent(s: State) {
    s.phase.InQueue? && s.phase.p < |s.q.activequeues| && s.q.activequeues[s.phase.p] != []
  }

  /** The step takes an active event off its queue: its callback runs, it is deleted, or its timeout is set anew. */
  predicate Retires(step: Step, s: State, e: Id) {
    match step
    case DoDel(x, _, inLoop) => x == e && MayCall(s.phase, inLoop)
    case DoAdd(x, tv, _, _, inLoop) =>
      && x == e && tv.Some? && MayCall(s.phase, inLoop) && Known(tv, s.q.commons)
      && e in s.q.ev && s.q.ev[e].byTimeout
    case DoLoop(_, _) => AtEvent(s) && s.q.activequeues[s.phase.p][0] == e
    case _ => false
  }

  predicate ActiveUser(q: Queues, e: Id) {
    UserEvent(q, e) && q.ev[e].active
  }

  lemma FrontIsInternal(s: State, e: Id)
    requires StateOk(s) && UserEvent(s.q, e)
    ensures NotFront(s.q.commons, e)
  {
    UserNotFront(s.q.ev, s.q.commons, e, Busy(s.phase));
  }

  // ------------------------------------------------------------ one event, one step

  lemma TakenFirst(s: State, s': State, x: Id, ioRes: int, now: Time)
    requires AtEvent(s) && TakeDid(s, s', x, ioRes, now)
    ensures x == s.q.activequeues[s.phase.p][0]
  {
  }

  /** The steps of the loop thread that change events: an event is taken, or the due events of a list are fired. */
  lemma LoopCases(s: State, s': State, ioRes: int, now: Time) returns (x: Id)
    requires LoopDid(s, s', ioRes, now)
    ensures if AtEvent(s) then x == s.q.activequeues[s.phase.p][0] && TakeDid(s, s', x, ioRes, now)
            else if s.phase.Running? && s.phase.cb.FrontCallback? then CallbackDid(s, s', now)
            else s'.q == s.q && s'.ioTimeout == s.ioTimeout
  {
    hide Chosen, AfterDeferring, AfterDeferred, Returned;
    x := 0;
    if AtEvent(s) {
      x :| TakeDid(s, s', x, ioRes, now);
      TakenFirst(s, s', x, ioRes, now);
      hide TakeDid;
    }
  }

  /** What a step makes of a user event. */
  function EventAfter(step: Step, s: State, e: Id): Event
    requires e in s.q.ev
  {
    var r := s.q.ev[e];
    match step
    case DoAdd(x, tv, now, ioRes, inLoop) =>
      if x == e && MayCall(s.phase, inLoop) && Known(tv, s.q.commons) && !(Inserts(r) && ioRes == -1) then
        Added(r, tv, GetTime(s.tvCache, now))
      else r
    case DoDel(x, _, inLoop) => if x == e && MayCall(s.phase, inLoop) then Cleared(r) else r
    case DoActive(x, inLoop) => if x == e && MayCall(s.phase, inLoop) then Activated(r, false) else r
    case DoPollEnd(ready, now) =>
      if !(s.phase.Blocked? && Reportable(s.q, ready)) then r
      else if HeapDue(r, now) then Fired(r)
      else if e in ready then Activated(r, false)
      else r
    case DoLoop(ioRes, now) =>
      if AtEvent(s) then
        if s.q.activequeues[s.phase.p][0] != e then r
        else Taken(r, NextTimeout(r, e, s.ioTimeout, GetTime(s.tvCache, now), |s.q.commons|), ioRes)
      else if s.phase.Running? && s.phase.cb.FrontCallback? && ListDue(r, s.phase.cb.i, GetTime(s.tvCache, now)) then
        Fired(r)
      else r
    case _ => r
  }

  lemma TakeEvents(s: State, s': State, x: Id, ioRes: int, now: Time, e: Id)
    requires AtEvent(s) && TakeDid(s, s', x, ioRes, now) && UserEvent(s.q, e)
    ensures e in s'.q.ev && s'.q.ev[e] == EventAfter(DoLoop(ioRes, now), s, e)
  {
    hide NextTimeout, Taken, GetTime, QueuesShrink;
  }

  lemma CallbackEvents(s: State, s': State, ioRes: int, now: Time, e: Id)
    requires s.phase.Running? && s.phase.cb.FrontCallback? && CallbackDid(s, s', now) && UserEvent(s.q, e)
    requires NotFront(s.q.commons, e)
    ensures e in s'.q.ev && s'.q.ev[e] == EventAfter(DoLoop(ioRes, now), s, e)
  {
    hide GetTime, Orderly, Taken, NextTimeout;
  }

  lemma LoopEvents(s: State, s': State, ioRes: int, now: Time, e: Id)
    requires StateOk(s) && LoopDid(s, s', ioRes, now) && UserEvent(s.q, e)
    ensures e in s'.q.ev && s'.q.ev[e] == EventAfter(DoLoop(ioRes, now), s, e)
  {
    var x := LoopCases(s, s', ioRes, now);
    FrontIsInternal(s, e);
    hide StateOk, LoopDid, TakeDid, CallbackDid;
    if AtEvent(s) {
      TakeEvents(s, s', x, ioRes, now, e);
    } else if s.phase.Running? && s.phase.cb.FrontCallback? {
      CallbackEvents(s, s', ioRes, now, e);
    }
  }

  lemma PollEvents(s: State, s': State, ready: seq<Id>, now: Time, e: Id)
    requires PollEndDid(s, s', ready, now) && UserEvent(s.q, e) && s.phase.Blocked? && Reportable(s.q, ready)
    ensures e in s'.q.ev && s'.q.ev[e] == EventAfter(DoPollEnd(ready, now), s, e)
  {
    hide Orderly;
  }

  lemma AddResult(s: State, s': State, x: Id, tv: Option<(Time, Option<nat>)>, now: Time, ioRes: int, inLoop: bool)
    requires UserEvent(s.q, x) && AddDid(s, s', x, tv, now, ioRes, inLoop)
    ensures if Inserts(s.q.ev[x]) && ioRes == -1 then s' == s
            else
              && UserChange(s.q.ev, s'.q.ev, x, Added(s.q.ev[x], tv, GetTime(s.tvCache, now)))
              && QueuesShrink(s.q, s'.q) && s'.ioTimeout == AgainAfter(s.ioTimeout, s.q.ev[x], x, tv)
  {
    hide GetTime, NoEarlier, QueuesShrink, UserChange, Added, AgainAfter, Calm;
  }

  lemma AddEvents(s: State, s': State, x: Id, tv: Option<(Time, Option<nat>)>, now: Time, ioRes: int, inLoop: bool,
                  e: Id)
    requires UserEvent(s.q, x) && AddDid(s, s', x, tv, now, ioRes, inLoop) && UserEvent(s.q, e)
    requires MayCall(s.phase, inLoop) && Known(tv, s.q.commons)
    ensures e in s'.q.ev && s'.q.ev[e] == EventAfter(DoAdd(x, tv, now, ioRes, inLoop), s, e)
  {
    AddResult(s, s', x, tv, now, ioRes, inLoop);
    hide GetTime, AddDid, QueuesShrink;
  }

  lemma EventIs(step: Step, s: State, s': State, e: Id)
    requires StateOk(s) && Did(step, s, s') && UserEvent(s.q, e)
    ensures e in s'.q.ev && s'.q.ev[e] == EventAfter(step, s, e)
  {
    hide StateOk, LoopDid, AddDid, PollEndDid, Sleeps, NothingLeft, QueuesShrink;
    match step {
      case DoAdd(x, tv, now, ioRes, inLoop) =>
        if MayCall(s.phase, inLoop) && UserEvent(s.q, x) && Known(tv, s.q.commons) {
          AddEvents(s, s', x, tv, now, ioRes, inLoop, e);
        }
      case DoPollEnd(ready, now) =>
        if s.phase.Blocked? && Reportable(s.q, ready) { PollEvents(s, s', ready, now, e); }
      case DoLoop(ioRes, now) => LoopEvents(s, s', ioRes, now, e);
      case _ =>
    }
  }

  lemma Kinds(r: Event, tv: Option<(Time, Option<nat>)>, now: Time, ioRes: int)
    ensures SameKind(r, Added(r, tv, now)) && SameKind(r, Taken(r, tv, ioRes)) && SameKind(r, Cleared(r))
    ensures SameKind(r, Activated(r, false)) && SameKind(r, Fired(r))
  {
  }

  /** A user event stays one, of the same kind. */
  lemma KindIs(step: Step, s: State, e: Id)
    requires e in s.q.ev
    ensures SameKind(s.q.ev[e], EventAfter(step, s, e))
  {
    hide NextTimeout, GetTime, Added, Taken, Cleared, Activated, Fired, SameKind, Known, AtEvent, Reportable;
    var r := s.q.ev[e];
    SameSelf(r);
    match step {
      case DoAdd(_, tv, now, _, _) => Kinds(r, tv, GetTime(s.tvCache, now), 0);
      case DoLoop(ioRes, now) =>
        Kinds(r, NextTimeout(r, e, s.ioTimeout, GetTime(s.tvCache, now), |s.q.commons|), 0, ioRes);
      case _ => Kinds(r, None, 0, 0);
    }
  }

  lemma SameSelf(r: Event)
    ensures SameKind(r, r)
  {
  }

  lemma StepEvent(step: Step, s: State, s': State, e: Id)
    requires StateOk(s) && Did(step, s, s') && UserEvent(s.q, e)
    ensures UserEvent(s'.q, e) && SameKind(s.q.ev[e], s'.q.ev[e]) && s'.q.ev[e] == EventAfter(step, s, e)
  {
    hide StateOk, Did, EventAfter;
    EventIs(step, s, s', e);
    KindIs(step, s, e);
  }

  // ------------------------------------------------------------ no activation is lost

  lemma StepKeepsActive(step: Step, s: State, s': State, e: Id)
    requires StateOk(s) && Did(step, s, s') && ActiveUser(s.q, e) && !Retires(step, s, e)
    ensures ActiveUser(s'.q, e)
  {
    hide StateOk, Did, NextTimeout, GetTime;
    StepEvent(step, s, s', e);
  }

  /** Whenever the loop thread sleeps and nobody has woken it, every user event that was active at some time has been
      retired since: its callback was run, or the user withdrew it. */
  lemma {:induction false} ActivationSeen(steps: seq<Step>, trace: seq<State>, k: nat, m: nat, e: Id)
    requires Trace(steps, trace) && k <= m < |trace| && forall j :: 0 <= j < |trace| ==> StateOk(trace[j])
    requires ActiveUser(trace[k].q, e)
    requires trace[m].phase.Blocked? && !trace[m].phase.poll && !trace[m].notifyReadable
    ensures exists j :: k <= j < m && ActiveUser(trace[j].q, e) && Retires(steps[j], trace[j], e)
    decreases m - k
  {
    hide StateOk, Did, Retires;
    if k == m {
      NoLostWakeup(trace[m]);
    } else if !Retires(steps[k], trace[k], e) {
      StepKeepsActive(steps[k], trace[k], trace[k + 1], e);
      ActivationSeen(steps, trace, k + 1, m, e);
    }
  }

  // ------------------------------------------------------------ events of one priority run in order

  /** The step is the one in which an event is taken for its callback. */
  predicate Runs(step: Step, s: State, e: Id) {
    step.DoLoop? && AtEvent(s) && s.q.activequeues[s.phase.p][0] == e
  }

  /** The step is the one in which the deadline of an event has come. */
  predicate Expires(step: Step, s: State, e: Id) {
    && e in s.q.ev && s.q.ev[e].timeout
    && match step
       case DoPollEnd(ready, now) =>
         s.phase.Blocked? && Reportable(s.q, ready) && s.q.ev[e].common.None? && s.q.ev[e].deadline <= now
       case DoLoop(_, now) =>
         && s.phase.Running? && s.phase.cb.FrontCallback? && s.q.ev[e].common == Some(s.phase.cb.i)
         && s.q.ev[e].deadline <= GetTime(s.tvCache, now)
       case _ => false
  }

  lemma ActivePlace(s: State, e: Id)
    requires StateOk(s) && e in s.q.ev && s.q.ev[e].active
    ensures s.q.ev[e].pri < |s.q.activequeues| && e in s.q.activequeues[s.q.ev[e].pri]
    ensures NoDup(s.q.activequeues[s.q.ev[e].pri])
  {
    assert ActiveOk(s.q.ev, s.q.activequeues);
  }

  /** Events have not been put ahead of `e`. */
  ghost predicate StillBehind(q: Queues, q': Queues, e: Id)
    requires e in q.ev && q.ev[e].pri < |q.activequeues|
  {
    && e in q'.ev && q'.ev[e].pri == q.ev[e].pri && q'.ev[e].pri < |q'.activequeues|
    && forall x :: Ahead(q'.activequeues[q.ev[e].pri], x, e) ==> Ahead(q.activequeues[q.ev[e].pri], x, e)
  }

  lemma ShrinkBehind(q: Queues, q': Queues, e: Id)
    requires e in q.ev && q.ev[e].pri < |q.activequeues| && QueuesShrink(q, q')
    requires e in q'.ev && q'.ev[e].pri == q.ev[e].pri
    ensures StillBehind(q, q', e)
  {
    hide Ahead;
    assert Thinned(q.activequeues[q.ev[e].pri], q'.activequeues[q.ev[e].pri]);
  }

  lemma OrderlyBehind(q: Queues, q': Queues, moved: set<Id>, e: Id)
    requires e in q.ev && q.ev[e].pri < |q.activequeues| && e in q.activequeues[q.ev[e].pri]
    requires Orderly(q, q', moved) && e !in moved && e in q'.ev && q'.ev[e].pri == q.ev[e].pri
    ensures StillBehind(q, q', e)
  {
    hide Ahead;
    assert Joined(q.activequeues[q.ev[e].pri], q'.activequeues[q.ev[e].pri], moved);
  }

  lemma TakeBehind(s: State, s': State, x: Id, ioRes: int, now: Time, e: Id)
    requires AtEvent(s) && TakeDid(s, s', x, ioRes, now) && UserEvent(s.q, e) && s.q.ev[e].pri < |s.q.activequeues|
    requires x != e
    ensures StillBehind(s.q, s'.q, e)
  {
    hide NextTimeout, Taken, GetTime, Thinned, StillBehind;
    ShrinkBehind(s.q, s'.q, e);
  }

  lemma CallbackBehind(s: State, s': State, now: Time, e: Id)
    requires s.phase.Running? && s.phase.cb.FrontCallback? && CallbackDid(s, s', now) && UserEvent(s.q, e)
    requires s.q.ev[e].pri < |s.q.activequeues| && e in s.q.activequeues[s.q.ev[e].pri] && NotFront(s.q.commons, e)
    requires !ListDue(s.q.ev[e], s.phase.cb.i, GetTime(s.tvCache, now))
    ensures StillBehind(s.q, s'.q, e)
  {
    hide GetTime, Joined, StillBehind;
    var i := s.phase.cb.i;
    OrderlyBehind(s.q, s'.q, {s.q.commons[i].front} + DueInList(s.q.ev, i, GetTime(s.tvCache, now)), e);
  }

  lemma SameBehind(q: Queues, e: Id)
    requires e in q.ev && q.ev[e].pri < |q.activequeues|
    ensures StillBehind(q, q, e)
  {
  }

  /** Nobody is put ahead of an event by the steps of the loop. */
  lemma LoopBehind(s: State, s': State, ioRes: int, now: Time, e: Id)
    requires StateOk(s) && LoopDid(s, s', ioRes, now) && ActiveUser(s.q, e)
    requires !Retires(DoLoop(ioRes, now), s, e) && !Expires(DoLoop(ioRes, now), s, e)
    ensures s.q.ev[e].pri < |s.q.activequeues| && StillBehind(s.q, s'.q, e)
  {
    hide StateOk, LoopDid, TakeDid, CallbackDid, GetTime, StillBehind, NotFront;
    var x := LoopCases(s, s', ioRes, now);
    ActivePlace(s, e);
    FrontIsInternal(s, e);
    SameBehind(s.q, e);
    if AtEvent(s) {
      TakeBehind(s, s', x, ioRes, now, e);
    } else if s.phase.Running? && s.phase.cb.FrontCallback? {
      CallbackBehind(s, s', now, e);
    }
  }

  lemma StepBehind(step: Step, s: State, s': State, e: Id)
    requires StateOk(s) && Did(step, s, s') && ActiveUser(s.q, e) && !Retires(step, s, e) && !Expires(step, s, e)
    ensures s.q.ev[e].pri < |s.q.activequeues| && StillBehind(s.q, s'.q, e)
  {
    hide StateOk, AddDid, DelDid, ActiveDid, PollDid, PollEndDid, LoopDid, GetTime, StillBehind, Woken;
    ActivePlace(s, e);
    SameBehind(s.q, e);
    match step {
      case DoAdd(x, tv, now, ioRes, inLoop) => if s' != s { AddBehind(s, s', x, tv, now, ioRes, inLoop, e); }
      case DoDel(x, ioRes, inLoop) => if s' != s { DelBehind(s, s', x, ioRes, inLoop, e); }
      case DoActive(x, inLoop) => if s' != s { ActiveBehind(s, s', x, inLoop, e); }
      case DoPollStart(now, nonblock) => if s' != s { PollStartBehind(s, s', now, nonblock); }
      case DoPollEnd(ready, now) => if s' != s { PollBehind(s, s', ready, now, e); }
      case DoLoop(ioRes, now) => LoopBehind(s, s', ioRes, now, e);
      case _ =>
    }
  }

  lemma PollStartBehind(s: State, s': State, now: Time, nonblock: bool)
    requires PollDid(s, s', now, nonblock)
    ensures s'.q == s.q
  {
    hide GetTime, Sleeps, NothingLeft;
  }

  lemma PollBehind(s: State, s': State, ready: seq<Id>, now: Time, e: Id)
    requires StateOk(s) && PollEndDid(s, s', ready, now) && ActiveUser(s.q, e) && !HeapDue(s.q.ev[e], now)
    ensures s.q.ev[e].pri < |s.q.activequeues| && StillBehind(s.q, s'.q, e)
  {
    hide StateOk, Orderly, StillBehind;
    ActivePlace(s, e);
    OrderlyBehind(s.q, s'.q, DueInHeap(s.q.ev, now), e);
  }

  lemma DelBehind(s: State, s': State, x: Id, ioRes: int, inLoop: bool, e: Id)
    requires x in s.q.ev && DelDid(s, s', x, ioRes, inLoop) && UserEvent(s.q, e) && s.q.ev[e].pri < |s.q.activequeues|
    ensures StillBehind(s.q, s'.q, e)
  {
    hide Woken, QueuesShrink, StillBehind;
    ShrinkBehind(s.q, s'.q, e);
  }

  lemma AddBehind(s: State, s': State, x: Id, tv: Option<(Time, Option<nat>)>, now: Time, ioRes: int, inLoop: bool,
                  e: Id)
    requires UserEvent(s.q, x) && AddDid(s, s', x, tv, now, ioRes, inLoop) && UserEvent(s.q, e)
    requires s.q.ev[e].pri < |s.q.activequeues|
    ensures StillBehind(s.q, s'.q, e)
  {
    hide AddDid, GetTime, QueuesShrink, StillBehind;
    AddResult(s, s', x, tv, now, ioRes, inLoop);
    SameBehind(s.q, e);
    if s'.q != s.q { ShrinkBehind(s.q, s'.q, e); }
  }

  lemma ActiveBehind(s: State, s': State, x: Id, inLoop: bool, e: Id)
    requires StateOk(s) && x in s.q.ev && ActiveDid(s, s', x, inLoop) && ActiveUser(s.q, e)
    ensures s.q.ev[e].pri < |s.q.activequeues| && StillBehind(s.q, s'.q, e)
  {
    ActivePlace(s, e);
    var qs := s.q.activequeues;
    if !s.q.ev[x].active {
      assert ActiveOk(s.q.ev, qs);
      JoinedLast(qs[s.q.ev[x].pri], x);
    }
  }

  /** Whoever is taken for its callback while `e` is active, and has been since some time, is of a better priority, or
      was ahead of `e` already then. */
  lemma {:induction false} RunInOrder(steps: seq<Step>, trace: seq<State>, k: nat, m: nat, e: Id, x: Id)
    requires Trace(steps, trace) && k <= m < |steps| && forall j :: 0 <= j < |trace| ==> StateOk(trace[j])
    requires ActiveUser(trace[k].q, e) && Runs(steps[m], trace[m], x) && x != e
    requires forall j :: k <= j < m ==> !Retires(steps[j], trace[j], e) && !Expires(steps[j], trace[j], e)
    ensures var p := trace[k].q.ev[e].pri;
            x in trace[m].q.ev && (trace[m].q.ev[x].pri < p
              || (p < |trace[k].q.activequeues| && Ahead(trace[k].q.activequeues[p], x, e)))
    decreases m - k
  {
    hide StateOk, Did, Retires, Expires, Ahead;
    if k == m {
      FirstIsAhead(steps[m], trace[m], trace[m + 1], e, x);
    } else {
      StepBehind(steps[k], trace[k], trace[k + 1], e);
      StepKeepsActive(steps[k], trace[k], trace[k + 1], e);
      RunInOrder(steps, trace, k + 1, m, e, x);
    }
  }

  lemma FirstIsAhead(step: Step, s: State, s': State, e: Id, x: Id)
    requires StateOk(s) && ActiveUser(s.q, e) && Runs(step, s, x) && x != e && Did(step, s, s')
    ensures x in s.q.ev && s.q.ev[e].pri < |s.q.activequeues|
    ensures s.q.ev[x].pri < s.q.ev[e].pri || Ahead(s.q.activequeues[s.q.ev[e].pri], x, e)
  {
    ActivePlace(s, e);
    var y :| TakeDid(s, s', y, step.ioRes, step.now);
    assert y == x;
    ActivePlace(s, x);
    var qs := s.q.activequeues;
    assert ActiveOk(s.q.ev, qs);
    assert x in qs[s.phase.p];
    hide StateOk, TakeDid;
    if s.q.ev[x].pri == s.q.ev[e].pri {
      var i :| 0 <= i < |qs[s.phase.p]| && qs[s.phase.p][i] == e;
      assert qs[s.phase.p][0] == x && 0 < i;
    }
  }

  // ------------------------------------------------------------ how many callbacks are run

  /** The loop thread starts a deferred callback. */
  predicate Defers(step: Step, s: State) {
    step.DoLoop? && s.phase.Deferring? && s.deferred > 0
  }

  /** The loop thread starts a callback. */
  predicate Begins(step: Step, s: State) {
    (step.DoLoop? && AtEvent(s)) || Defers(step, s)
  }

  /** How many callbacks are started from `k` on. */
  function Begun(steps: seq<Step>, trace: seq<State>, k: nat): nat
    requires k <= |steps| && |trace| == |steps| + 1
    decreases |steps| - k
  {
    if k == |steps| then 0 else (if Begins(steps[k], trace[k]) then 1 else 0) + Begun(steps, trace, k + 1)
  }

  /** Between callbacks there may be one more. */
  function OneMore(ph: Phase): nat {
    if ph.Blocked? || ph.Choosing? || ph.InQueue? || ph.Deferring? then 1 else 0
  }

  /** Where the loop thread goes on its own. */
  predicate LoopGoes(s: State, ph: Phase) {
    match s.phase
    case Choosing(_) => ph == Deferring(0) || ph.InQueue? || ph.Choosing?
    case InQueue(p, count) => QueueGoes(s, p, count, ph)
    case Running(p, count, cb) => RunGoes(p, count, cb, s.eventBreak, ph)
    case Deferring(n) => ph == if s.deferred == 0 then Top else RunningDeferred(n)
    case RunningDeferred(n) => ph == if s.eventBreak || n + 1 == MAX_DEFERRED then Top else Deferring(n + 1)
    case _ => ph == s.phase
  }

  /** From a queue: events of the user are counted. */
  predicate QueueGoes(s: State, p: nat, count: nat, ph: Phase) {
    if AtEvent(s) then
      && ph.Running? && ph.p == p
      && (count > 0 || UserEvent(s.q, s.q.activequeues[s.phase.p][0]) ==> ph.count > 0)
    else ph == if count > 0 then Deferring(0) else Choosing(p + 1)
  }

  /** And when a callback returns. */
  predicate RunGoes(p: nat, count: nat, cb: Callback, eventBreak: bool, ph: Phase) {
    if !cb.UserCallback? then ph.Running? && ph.p == p && ph.count == count
    else if eventBreak then ph == Top
    else ph == Deferring(0) || ph == InQueue(p, count)
  }

  /** Where a step can take the loop thread. */
  predicate PhaseAfter(step: Step, s: State, ph: Phase) {
    match step
    case DoStart => ph == if s.phase.Outside? then Top else s.phase
    case DoLeave => ph == if s.phase.Top? then Outside else s.phase
    case DoPollStart(_, _) => if s.phase.Top? then ph.Outside? || (ph.Blocked? && !s.eventBreak) else ph == s.phase
    case DoPollEnd(_, _) => ph == s.phase || (s.phase.Blocked? && (ph == Choosing(0) || ph == Top))
    case DoPollFails => ph == if s.phase.Blocked? then Outside else s.phase
    case DoLoop(_, _) => LoopGoes(s, ph)
    case _ => ph == s.phase
  }

  lemma TakePhase(s: State, s': State, x: Id, ioRes: int, now: Time)
    requires AtEvent(s) && TakeDid(s, s', x, ioRes, now)
    ensures QueueGoes(s, s.phase.p, s.phase.count, s'.phase) && s'.eventBreak == s.eventBreak
  {
    hide NextTimeout, Taken, GetTime, QueuesShrink, UserChange, CalmBut;
  }

  lemma ChosenPhase(s: State)
    requires s.phase.Choosing? && s.phase.p <= |s.q.activequeues|
    ensures LoopGoes(s, Chosen(s).phase) && Chosen(s).eventBreak == s.eventBreak
  {
  }

  lemma ReturnedPhase(s: State)
    requires s.phase.Running?
    ensures RunGoes(s.phase.p, s.phase.count, UserCallback, s.eventBreak, Returned(s).phase)
    ensures Returned(s).eventBreak == s.eventBreak
  {
  }

  lemma DeferringPhase(s: State)
    ensures s.phase.Deferring? ==>
              LoopGoes(s, AfterDeferring(s).phase) && AfterDeferring(s).eventBreak == s.eventBreak
    ensures s.phase.RunningDeferred? ==>
              LoopGoes(s, AfterDeferred(s).phase) && AfterDeferred(s).eventBreak == s.eventBreak
  {
  }

  lemma RunPhase(s: State, s': State, now: Time)
    requires s.phase.Running? && CallbackDid(s, s', now)
    ensures RunGoes(s.phase.p, s.phase.count, s.phase.cb, s.eventBreak, s'.phase) && s'.eventBreak == s.eventBreak
  {
    ReturnedPhase(s);
    hide GetTime, ListFired, Orderly, Returned;
  }

  lemma QueuePhase(s: State, s': State, ioRes: int, now: Time)
    requires s.phase.InQueue? && QueueDid(s, s', ioRes, now)
    ensures LoopGoes(s, s'.phase) && s'.eventBreak == s.eventBreak
  {
    hide TakeDid;
    if AtEvent(s) {
      var x :| TakeDid(s, s', x, ioRes, now);
      TakePhase(s, s', x, ioRes, now);
    }
  }

  lemma LoopPhase(s: State, s': State, ioRes: int, now: Time)
    requires LoopDid(s, s', ioRes, now)
    ensures LoopGoes(s, s'.phase) && s'.eventBreak == s.eventBreak
  {
    hide QueueDid, CallbackDid, Chosen, AfterDeferring, AfterDeferred;
    DeferringPhase(s);
    match s.phase {
      case Choosing(_) => ChosenPhase(s);
      case InQueue(_, _) => QueuePhase(s, s', ioRes, now);
      case Running(_, _, _) => RunPhase(s, s', now);
      case _ =>
    }
  }

  lemma DelKeeps(s: State, s': State, x: Id, ioRes: int, inLoop: bool)
    requires x in s.q.ev && DelDid(s, s', x, ioRes, inLoop)
    ensures s'.phase == s.phase && s'.eventBreak == s.eventBreak && s'.ioTimeout == s.ioTimeout
    ensures |s'.q.commons| == |s.q.commons|
  {
    hide Woken, Thinned, Cleared;
  }

  lemma ActiveKeeps(s: State, s': State, x: Id, inLoop: bool)
    requires x in s.q.ev && ActiveDid(s, s', x, inLoop)
    ensures s'.phase == s.phase && s'.eventBreak == s.eventBreak && s'.ioTimeout == s.ioTimeout
    ensures |s'.q.commons| == |s.q.commons|
  {
    hide Woken, Activated;
  }

  lemma AddKeeps(s: State, s': State, x: Id, tv: Option<(Time, Option<nat>)>, now: Time, ioRes: int, inLoop: bool)
    requires x in s.q.ev && AddDid(s, s', x, tv, now, ioRes, inLoop)
    ensures s'.phase == s.phase && s'.eventBreak == s.eventBreak
  {
    hide Woken, GetTime, NoEarlier, QueuesShrink, UserChange, Calm, AgainAfter, Added;
  }

  lemma CallPhase(step: Step, s: State, s': State)
    requires Did(step, s, s') && (step.DoAdd? || step.DoDel? || step.DoActive? || step.DoDefer? || step.DoBreak?)
    ensures s'.phase == s.phase && (s.eventBreak ==> s'.eventBreak)
  {
    hide AddDid, DelDid, ActiveDid, Woken;
    match step {
      case DoAdd(x, tv, now, ioRes, inLoop) => if s' != s { AddKeeps(s, s', x, tv, now, ioRes, inLoop); }
      case DoDel(x, ioRes, inLoop) => if s' != s { DelKeeps(s, s', x, ioRes, inLoop); }
      case DoActive(x, inLoop) => if s' != s { ActiveKeeps(s, s', x, inLoop); }
      case _ =>
    }
  }

  lemma PhaseIs(step: Step, s: State, s': State)
    requires Did(step, s, s')
    ensures PhaseAfter(step, s, s'.phase) && (s.eventBreak && !step.DoStart? ==> s'.eventBreak)
  {
    if step.DoAdd? || step.DoDel? || step.DoActive? || step.DoDefer? || step.DoBreak? {
      CallPhase(step, s, s');
      hide Did;
    } else {
      hide LoopDid, GetTime, Sleeps, NothingLeft, HeapFired, Orderly, AddDid, DelDid, ActiveDid;
      hide LoopGoes, AtEvent, Woken;
      if step.DoLoop? { LoopPhase(s, s', step.ioRes, step.now); }
    }
  }

  lemma StepBreaks(step: Step, s: State, s': State)
    requires s.eventBreak && Did(step, s, s') && !step.DoStart?
    ensures s'.eventBreak && (if Begins(step, s) then 1 else 0) + OneMore(s'.phase) <= OneMore(s.phase)
  {
    hide Did;
    PhaseIs(step, s, s');
  }

  /** Once somebody has asked for a break, the loop thread starts at most one more callback until the loop is started
      again, and none if a callback was running. */
  lemma {:induction false} BreakStops(steps: seq<Step>, trace: seq<State>, k: nat)
    requires Trace(steps, trace) && k <= |steps| && trace[k].eventBreak
    requires forall j :: k <= j < |steps| ==> !steps[j].DoStart?
    ensures Begun(steps, trace, k) <= OneMore(trace[k].phase) <= 1
    ensures trace[k].phase.Running? || trace[k].phase.RunningDeferred? ==> Begun(steps, trace, k) == 0
    decreases |steps| - k
  {
    hide Did, Begins;
    if k < |steps| {
      StepBreaks(steps[k], trace[k], trace[k + 1]);
      BreakStops(steps, trace, k + 1);
    }
  }

  /** How many deferred callbacks are started from `k` on. */
  function Deferred(steps: seq<Step>, trace: seq<State>, k: nat): nat
    requires k <= |steps| && |trace| == |steps| + 1
    decreases |steps| - k
  {
    if k == |steps| then 0 else (if Defers(steps[k], trace[k]) then 1 else 0) + Deferred(steps, trace, k + 1)
  }

  /** How many there can be until the loop thread comes to its top. */
  function Allowed(ph: Phase): int {
    match ph
    case Outside => 0
    case Top => 0
    case Deferring(n) => MAX_DEFERRED - n
    case RunningDeferred(n) => MAX_DEFERRED - n - 1
    case _ => MAX_DEFERRED
  }

  lemma StepDefers(step: Step, s: State, s': State)
    requires StateOk(s) && Did(step, s, s') && !step.DoPollStart?
    ensures (if Defers(step, s) then 1 else 0) + Allowed(s'.phase) <= Allowed(s.phase)
  {
    hide Did, StateOk, AtEvent;
    PhaseIs(step, s, s');
    AllowedLeft(s);
    if !step.DoLoop? { hide LoopGoes; }
  }

  lemma AllowedLeft(s: State)
    requires StateOk(s)
    ensures 0 <= Allowed(s.phase) <= MAX_DEFERRED
  {
    hide BaseOk;
  }

  /** Between two waits of the loop thread at most sixteen deferred callbacks are run. */
  lemma {:induction false} DeferredBound(steps: seq<Step>, trace: seq<State>, k: nat)
    requires Trace(steps, trace) && k <= |steps| && forall j :: 0 <= j < |trace| ==> StateOk(trace[j])
    requires forall j :: k <= j < |steps| ==> !steps[j].DoPollStart?
    ensures Deferred(steps, trace, k) <= Allowed(trace[k].phase) <= 16
    decreases |steps| - k
  {
    AllowedLeft(trace[k]);
    hide Did, StateOk, Defers, Allowed;
    if k < |steps| {
      StepDefers(steps[k], trace[k], trace[k + 1]);
      DeferredBound(steps, trace, k + 1);
    }
  }

  // ------------------------------------------------------------ one queue at a time

  /** The loop thread has run an event of the user from queue `p`, and has not waited since. */
  predicate InPass(ph: Phase, p: nat) {
    match ph
    case Running(q, count, _) => q == p && count > 0
    case InQueue(q, count) => q == p && count > 0
    case Blocked(_, _, _) => false
    case Choosing(_) => false
    case _ => true
  }

  lemma StepInPass(step: Step, s: State, s': State, p: nat)
    requires Did(step, s, s') && InPass(s.phase, p) && !step.DoPollStart?
    ensures InPass(s'.phase, p)
  {
    hide Did;
    PhaseIs(step, s, s');
  }

  lemma {:induction false} PassGoesOn(steps: seq<Step>, trace: seq<State>, k: nat, m: nat, p: nat)
    requires Trace(steps, trace) && k <= m < |trace| && InPass(trace[k].phase, p)
    requires forall j :: k <= j < m ==> !steps[j].DoPollStart?
    ensures InPass(trace[m].phase, p)
    decreases m - k
  {
    hide Did, InPass;
    if k < m {
      StepInPass(steps[k], trace[k], trace[k + 1], p);
      PassGoesOn(steps, trace, k + 1, m, p);
    }
  }

  /** Between two waits the loop thread runs events of the user of one priority only: one of a worse priority has to
      wait until the loop thread has looked for events of better ones again. */
  lemma OneQueueAtATime(steps: seq<Step>, trace: seq<State>, k: nat, m: nat, x: Id, y: Id)
    requires Trace(steps, trace) && k < m < |steps| && forall j :: 0 <= j < |trace| ==> StateOk(trace[j])
    requires Runs(steps[k], trace[k], x) && UserEvent(trace[k].q, x) && Runs(steps[m], trace[m], y)
    requires forall j :: k < j < m ==> !steps[j].DoPollStart?
    ensures y in trace[m].q.ev && trace[m].q.ev[y].pri == trace[k].q.ev[x].pri
  {
    hide StateOk, Did;
    HeadPriority(trace[k]);
    HeadPriority(trace[m]);
    assert InPass(trace[k + 1].phase, trace[k].phase.p) by { PhaseIs(steps[k], trace[k], trace[k + 1]); }
    PassGoesOn(steps, trace, k + 1, m, trace[k].phase.p);
  }

  lemma HeadPriority(s: State)
    requires StateOk(s) && AtEvent(s)
    ensures var x := s.q.activequeues[s.phase.p][0]; x in s.q.ev && s.q.ev[x].active && s.q.ev[x].pri == s.phase.p
  {
    assert ActiveOk(s.q.ev, s.q.activequeues);
    assert s.q.activequeues[s.phase.p][0] in s.q.activequeues[s.phase.p];
  }

  /** The loop thread leaves the loop on its own only when somebody has asked for a break, or no event of the user is on
      any queue and nothing is deferred; otherwise its flags or its backend have ended the loop. */
  lemma LeavesWhenDone(step: Step, s: State, s': State)
    requires Did(step, s, s') && !s.phase.Outside? && s'.phase.Outside? && !step.DoLeave? && !step.DoPollFails?
    ensures s.eventBreak || s.deferred == 0
    ensures s.eventBreak || forall e :: UserEvent(s.q, e) ==>
              !s.q.ev[e].inserted && !s.q.ev[e].active && !s.q.ev[e].timeout
  {
    PhaseIs(step, s, s');
    if step.DoPollStart? {
      hide Sleeps, GetTime, PhaseAfter, AddDid, DelDid, ActiveDid, PollEndDid, LoopDid;
    } else {
      hide Did, AtEvent;
    }
  }

  // ------------------------------------------------------------ a sleep that is too long

  const SECOND: Time := 1000000

  /** An event becomes active, and its callback, which starts when the time has just been noted, asks for a timeout of
      one second and takes five. */
  function SlowCallback(e: Id, start: Time): seq<Step> {
    [DoActive(e, false), DoStart, DoPollStart(start, false), DoPollEnd([], start),
     DoLoop(0, start), DoLoop(0, start), DoAdd(e, Some((SECOND, None)), start, 0, true),
     DoLoop(0, start + 5 * SECOND), DoLoop(0, start + 5 * SECOND), DoLoop(0, start + 5 * SECOND),
     DoPollStart(start + 5 * SECOND, false)]
  }

  /** A base with one plain event of the best priority, and no other event but the one for wake-ups. */
  ghost predicate OneEvent(q: Queues, notifyEvent: Id, e: Id) {
    && Fresh(q, notifyEvent) && UserEvent(q, e) && q.commons == []
       && (forall x :: x in q.ev ==> x == e || x == notifyEvent)
    && q.ev[e].pri == 0 && !q.ev[e].persist && !q.ev[e].io
  }

  /** The event alone is active. */
  ghost predicate Alone(q: Queues, e: Id, notifyEvent: Id) {
    && e != notifyEvent && (forall x :: x in q.ev ==> x == e || x == notifyEvent)
    && ActiveUser(q, e) && q.ev[e].pri == 0 && !q.ev[e].persist && !q.ev[e].io
    && forall x :: x in q.ev ==> !q.ev[x].timeout && (x != e ==> !q.ev[x].active)
  }

  lemma AloneFirst(s: State, e: Id)
    requires StateOk(s) && Alone(s.q, e, s.notifyEvent)
    ensures s.q.countActive > 0 && |s.q.activequeues| > 0 && s.q.activequeues[0] != [] && s.q.activequeues[0][0] == e
  {
    BaseActive(s.q, e, s.notifyEvent, Busy(s.phase));
    assert s.q.activequeues[0][0] in s.q.activequeues[0];
  }

  /** The loop thread is where `ph` says; nobody has asked for anything else, and no wake-up is pending. */
  ghost predicate At(s: State, ph: Phase, tvCache: Option<Time>, running: int, notifyEvent: Id) {
    && s.phase == ph && s.tvCache == tvCache && s.runningPriority == running && s.notifyEvent == notifyEvent
       && s.cacheTime
    && s.deferred == 0 && !s.eventBreak && !s.eventContinue && !s.isNotifyPending && !s.notifyReadable
    && s.ioTimeout == map[]
  }

  lemma Activates(q: Queues, s: State, notifyEvent: Id, e: Id)
    requires OneEvent(q, notifyEvent, e) && Did(DoActive(e, false), NewState(q, notifyEvent, true), s)
    ensures At(s, Outside, None, -1, notifyEvent) && Alone(s.q, e, notifyEvent)
  {
  }

  lemma Starts(s: State, s': State, notifyEvent: Id, e: Id)
    requires At(s, Outside, None, -1, notifyEvent) && Alone(s.q, e, notifyEvent) && Did(DoStart, s, s')
    ensures At(s', Top, None, -1, notifyEvent) && Alone(s'.q, e, notifyEvent)
  {
    hide Alone;
  }

  lemma Polls(s: State, s': State, notifyEvent: Id, e: Id, start: Time)
    requires At(s, Top, None, -1, notifyEvent) && Alone(s.q, e, notifyEvent) && StateOk(s)
             && Did(DoPollStart(start, false), s, s')
    ensures At(s', Blocked(None, true, 0), None, -1, notifyEvent) && Alone(s'.q, e, notifyEvent)
  {
    hide StateOk;
    AloneFirst(s, e);
  }

  lemma Reports(s: State, s': State, notifyEvent: Id, e: Id, start: Time)
    requires At(s, Blocked(None, true, 0), None, -1, notifyEvent) && Alone(s.q, e, notifyEvent)
    requires Did(DoPollEnd([], start), s, s') && StateOk(s')
    ensures At(s', Choosing(0), Some(start), -1, notifyEvent) && Alone(s'.q, e, notifyEvent)
  {
    hide StateOk;
    AloneFirst(s', e);
  }

  lemma Chooses(s: State, s': State, notifyEvent: Id, e: Id, start: Time)
    requires At(s, Choosing(0), Some(start), -1, notifyEvent) && Alone(s.q, e, notifyEvent) && StateOk(s)
             && Did(DoLoop(0, start), s, s')
    ensures At(s', InQueue(0, 0), Some(start), 0, notifyEvent) && Alone(s'.q, e, notifyEvent)
  {
    hide StateOk, Alone;
    AloneFirst(s, e);
  }

  /** Nothing is active, and the event is not watched. */
  ghost predicate Quiet(q: Queues, e: Id, notifyEvent: Id) {
    && UserEvent(q, e) && !q.ev[e].persist && !q.ev[e].io && e != notifyEvent
    && (forall x :: x in q.ev ==> x == e || x == notifyEvent) && (forall x :: x in q.ev ==> !q.ev[x].active)
  }

  lemma QuietQueues(s: State, e: Id)
    requires StateOk(s) && Quiet(s.q, e, s.notifyEvent)
    ensures s.q.countActive == 0 && |s.q.activequeues| > 0 && s.q.activequeues[0] == []
  {
    NoneActive(s.q);
    SumLenZero(s.q.activequeues);
  }

  lemma Takes(s: State, s': State, notifyEvent: Id, e: Id, start: Time)
    requires At(s, InQueue(0, 0), Some(start), 0, notifyEvent) && Alone(s.q, e, notifyEvent) && StateOk(s)
    requires Did(DoLoop(0, start), s, s') && StateOk(s')
    ensures At(s', Running(0, 1, UserCallback), Some(start), 0, notifyEvent) && Quiet(s'.q, e, notifyEvent)
  {
    hide StateOk, GetTime, NextTimeout;
    AloneFirst(s, e);
    var x :| TakeDid(s, s', x, 0, start);
    FrontIsInternal(s', e);
  }

  lemma Adds(s: State, s': State, notifyEvent: Id, e: Id, start: Time)
    requires At(s, Running(0, 1, UserCallback), Some(start), 0, notifyEvent) && Quiet(s.q, e, notifyEvent)
    requires Did(DoAdd(e, Some((SECOND, None)), start, 0, true), s, s')
    ensures At(s', Running(0, 1, UserCallback), Some(start), 0, notifyEvent) && Quiet(s'.q, e, notifyEvent)
    ensures s'.q.ev[e].timeout && s'.q.ev[e].common.None? && s'.q.ev[e].deadline == start + SECOND
  {
    hide NoEarlier;
  }

  /** The callback returns, and nothing else is to be done. */
  lemma GoesBack(s: State, s1: State, s2: State, s3: State, notifyEvent: Id, e: Id, start: Time, now: Time)
    requires At(s, Running(0, 1, UserCallback), Some(start), 0, notifyEvent) && Quiet(s.q, e, notifyEvent) && StateOk(s)
    requires Did(DoLoop(0, now), s, s1) && Did(DoLoop(0, now), s1, s2) && Did(DoLoop(0, now), s2, s3)
    ensures At(s3, Top, Some(start), -1, notifyEvent) && s3.q == s.q
  {
    hide StateOk, Quiet;
    QuietQueues(s, e);
    assert At(s1, InQueue(0, 1), Some(start), 0, notifyEvent) && s1.q == s.q;
    assert At(s2, Deferring(0), Some(start), 0, notifyEvent) && s2.q == s.q;
  }

  lemma SleepsOn(s: State, s': State, notifyEvent: Id, e: Id, start: Time, now: Time)
    requires At(s, Top, Some(start), -1, notifyEvent) && Quiet(s.q, e, notifyEvent) && StateOk(s)
    requires s.q.ev[e].timeout && s.q.ev[e].common.None? && s.q.ev[e].deadline == start + SECOND
    requires Did(DoPollStart(now, false), s, s')
    ensures s'.phase == Blocked(Some(now + SECOND), false, now - start) && s'.q == s.q
  {
    QuietQueues(s, e);
    HeapKnown(s.q);
    hide BaseOk, StateOk;
    assert IsTop(s.q.ev, s.q.timeheap, e);
    assert !HasDue(s.q, start);
    SleepOnTime(s, s', now, false, e);
  }

  /** The loop then sleeps until five seconds after the deadline, with nobody to wake it. */
  lemma SleepsTooLong(q: Queues, notifyEvent: Id, e: Id, start: Time, trace: seq<State>)
    requires OneEvent(q, notifyEvent, e) && Trace(SlowCallback(e, start), trace)
             && trace[0] == NewState(q, notifyEvent, true)
    requires forall k :: 0 <= k < |trace| ==> StateOk(trace[k])
    ensures var s := trace[11];
            && e in s.q.ev && s.q.ev[e].timeout && s.q.ev[e].deadline == start + SECOND
            && s.phase.Blocked? && !s.phase.poll && s.phase.until == Some(start + SECOND + 5 * SECOND)
  {
    hide StateOk, Did, OneEvent, At, Alone;
    var steps := SlowCallback(e, start);
    assert forall k :: 0 <= k < 11 ==> Did(steps[k], trace[k], trace[k + 1]);
    Activates(q, trace[1], notifyEvent, e);
    Starts(trace[1], trace[2], notifyEvent, e);
    Polls(trace[2], trace[3], notifyEvent, e, start);
    Reports(trace[3], trace[4], notifyEvent, e, start);
    Chooses(trace[4], trace[5], notifyEvent, e, start);
    Takes(trace[5], trace[6], notifyEvent, e, start);
    Adds(trace[6], trace[7], notifyEvent, e, start);
    GoesBack(trace[7], trace[8], trace[9], trace[10], notifyEvent, e, start, start + 5 * SECOND);
    SleepsOn(trace[10], trace[11], notifyEvent, e, start, start + 5 * SECOND);
  }

  /** There is such a run. */
  method SlowRun(q: Queues, notifyEvent: Id, e: Id, start: Time) returns (base: EventBase)
    requires OneEvent(q, notifyEvent, e)
    ensures base.Valid() && e in base.q.ev && base.q.ev[e].timeout && base.q.ev[e].deadline == start + SECOND
    ensures base.phase.Blocked? && !base.phase.poll && base.phase.until == Some(start + SECOND + 5 * SECOND)
  {
    hide StateOk, Did, NothingMissed;
    ghost var trace;
    base, trace := Run(q, notifyEvent, true, SlowCallback(e, start));
    SleepsTooLong(q, notifyEvent, e, start, trace);
  }
}
