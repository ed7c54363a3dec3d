/** The life of one event over whole runs: when it runs, when it does not, and when its timeout comes again. */
module EventTimers {
  import opened Common
  import opened Lists
  import opened EventQueues
  import opened EventTimeouts
  import opened EventLoop
  import opened EventRuns

  // ------------------------------------------------------------ what a step leaves alone

  lemma TakeFrame(s: State, s': State, x: Id, ioRes: int, now: Time)
    requires AtEvent(s) && TakeDid(s, s', x, ioRes, now)
    ensures |s'.q.commons| == |s.q.commons| && s'.ioTimeout == s.ioTimeout
  {
    hide NextTimeout, Taken, GetTime, Thinned, UserChange;
  }

  lemma CallbackFrame(s: State, s': State, now: Time)
    requires s.phase.Running? && CallbackDid(s, s', now)
    ensures |s'.q.commons| == |s.q.commons| && s'.ioTimeout == s.ioTimeout
  {
    hide GetTime, Joined, ListFired;
  }

  lemma LoopFrame(s: State, s': State, ioRes: int, now: Time)
    requires LoopDid(s, s', ioRes, now)
    ensures |s'.q.commons| == |s.q.commons| && s'.ioTimeout == s.ioTimeout
  {
    var x := LoopCases(s, s', ioRes, now);
    hide LoopDid, TakeDid, CallbackDid;
    if AtEvent(s) {
      TakeFrame(s, s', x, ioRes, now);
    } else if s.phase.Running? && s.phase.cb.FrontCallback? {
      CallbackFrame(s, s', now);
    }
  }

  lemma AddFrame(s: State, s': State, x: Id, tv: Option<(Time, Option<nat>)>, now: Time, ioRes: int, inLoop: bool)
    requires UserEvent(s.q, x) && AddDid(s, s', x, tv, now, ioRes, inLoop)
    ensures |s'.q.commons| == |s.q.commons|
    ensures s'.ioTimeout == if Inserts(s.q.ev[x]) && ioRes == -1 then s.ioTimeout
                            else AgainAfter(s.ioTimeout, s.q.ev[x], x, tv)
  {
    AddResult(s, s', x, tv, now, ioRes, inLoop);
    hide AddDid, AgainAfter, Thinned;
  }

  /** Whether the step adds `e` with a timeout. */
  predicate Times(step: Step, e: Id) {
    step.DoAdd? && step.e == e && step.tv.Some?
  }

  lemma PollFrame(s: State, s': State, ready: seq<Id>, now: Time)
    requires PollEndDid(s, s', ready, now)
    ensures |s'.q.commons| == |s.q.commons| && s'.ioTimeout == s.ioTimeout
  {
    hide Joined, HeapFired, ReadyMarked;
  }

  lemma PollStartFrame(s: State, s': State, now: Time, nonblock: bool)
    requires PollDid(s, s', now, nonblock)
    ensures |s'.q.commons| == |s.q.commons| && s'.ioTimeout == s.ioTimeout
  {
    hide GetTime, Sleeps, NothingLeft;
  }

  lemma StepFrame(step: Step, s: State, s': State, e: Id)
    requires Did(step, s, s') && !Times(step, e)
    ensures |s'.q.commons| == |s.q.commons|
    ensures e in s.ioTimeout ==> e in s'.ioTimeout && s'.ioTimeout[e] == s.ioTimeout[e]
  {
    hide LoopDid, AddDid, PollEndDid, DelDid, ActiveDid, PollDid, Woken;
    match step {
      case DoAdd(x, tv, now, ioRes, inLoop) =>
        if MayCall(s.phase, inLoop) && UserEvent(s.q, x) && Known(tv, s.q.commons) {
          AddFrame(s, s', x, tv, now, ioRes, inLoop);
        }
      case DoPollEnd(ready, now) =>
        if s.phase.Blocked? && Reportable(s.q, ready) { PollFrame(s, s', ready, now); }
      case DoLoop(ioRes, now) => LoopFrame(s, s', ioRes, now);
      case DoDel(x, ioRes, inLoop) => if s' != s { DelKeeps(s, s', x, ioRes, inLoop); }
      case DoActive(x, inLoop) => if s' != s { ActiveKeeps(s, s', x, inLoop); }
      case DoPollStart(now, nonblock) => if s' != s { PollStartFrame(s, s', now, nonblock); }
      case _ =>
    }
  }

  // ------------------------------------------------------------ events that are not pending do not run

  /** The event is on no queue. */
  predicate OffDuty(q: Queues, e: Id) {
    UserEvent(q, e) && !q.ev[e].inserted && !q.ev[e].active && !q.ev[e].timeout
  }

  lemma OffDutyStays(step: Step, s: State, s': State, e: Id)
    requires StateOk(s) && Did(step, s, s') && OffDuty(s.q, e)
    requires !(step.DoAdd? && step.e == e) && !(step.DoActive? && step.e == e)
    ensures OffDuty(s'.q, e) && !Runs(step, s, e)
  {
    hide StateOk, Did, NextTimeout, Taken, GetTime, Known, Added, MayCall;
    StepEvent(step, s, s', e);
    if AtEvent(s) { HeadPriority(s); }
  }

  /** An event that is on no queue runs only after somebody has added it or made it active. */
  lemma {:induction false} SilentUntilAdded(steps: seq<Step>, trace: seq<State>, k: nat, m: nat, e: Id)
    requires Trace(steps, trace) && k <= m < |steps| && forall j :: 0 <= j < |trace| ==> StateOk(trace[j])
    requires OffDuty(trace[k].q, e) && Runs(steps[m], trace[m], e)
    ensures exists j :: k <= j < m && (steps[j].DoAdd? || steps[j].DoActive?) && steps[j].e == e
    decreases m - k
  {
    hide StateOk, Did, OffDuty;
    if !((steps[k].DoAdd? || steps[k].DoActive?) && steps[k].e == e) {
      OffDutyStays(steps[k], trace[k], trace[k + 1], e);
      hide Runs;
      SilentUntilAdded(steps, trace, k + 1, m, e);
    }
  }

  /** After `event_del`, an event does not run until it is added or made active again. */
  lemma DeletedIsSilent(steps: seq<Step>, trace: seq<State>, k: nat, m: nat, e: Id)
    requires Trace(steps, trace) && k < m < |steps| && forall j :: 0 <= j < |trace| ==> StateOk(trace[j])
    requires steps[k].DoDel? && steps[k].e == e && MayCall(trace[k].phase, steps[k].inLoop) && UserEvent(trace[k].q, e)
    requires Runs(steps[m], trace[m], e)
    ensures exists j :: k < j < m && (steps[j].DoAdd? || steps[j].DoActive?) && steps[j].e == e
  {
    hide StateOk, Did, Runs;
    StepEvent(steps[k], trace[k], trace[k + 1], e);
    SilentUntilAdded(steps, trace, k + 1, m, e);
  }

  /** An event that is not persistent runs once for each time that it is added or made active. */
  lemma OnceOnly(steps: seq<Step>, trace: seq<State>, k: nat, m: nat, e: Id)
    requires Trace(steps, trace) && k < m < |steps| && forall j :: 0 <= j < |trace| ==> StateOk(trace[j])
    requires Runs(steps[k], trace[k], e) && UserEvent(trace[k].q, e) && !trace[k].q.ev[e].persist
    requires Runs(steps[m], trace[m], e)
    ensures exists j :: k < j < m && (steps[j].DoAdd? || steps[j].DoActive?) && steps[j].e == e
  {
    hide StateOk, Did, NextTimeout;
    StepEvent(steps[k], trace[k], trace[k + 1], e);
    hide Runs;
    SilentUntilAdded(steps, trace, k + 1, m, e);
  }

  // ------------------------------------------------------------ timeouts

  /** What `event_add` with a timeout does, unless the fd map refuses: the timeout is pending, from now, and an
      activation that an earlier timeout has brought is withdrawn; one that has another reason stays. */
  lemma AddSets(step: Step, s: State, s': State, e: Id)
    requires StateOk(s) && Did(step, s, s') && Times(step, e) && UserEvent(s.q, e)
    requires MayCall(s.phase, step.inLoop) && Known(step.tv, s.q.commons)
    requires !(s.q.ev[e].io && !s.q.ev[e].inserted && !s.q.ev[e].active && step.ioRes == -1)
    ensures var r, seen := s.q.ev[e], if s.tvCache.Some? then s.tvCache.value else step.now;
            && e in s'.q.ev && s'.q.ev[e].timeout && s'.q.ev[e].deadline == seen + step.tv.value.0
            && s'.q.ev[e].common == step.tv.value.1 && s'.q.ev[e].active == (r.active && !r.byTimeout)
            && s'.q.ev[e].inserted == (r.inserted || (r.io && !r.active))
  {
    hide StateOk, Did;
    StepEvent(step, s, s', e);
  }

  /** The timeout of an event is pending. */
  predicate Pending(q: Queues, e: Id, deadline: Time) {
    UserEvent(q, e) && q.ev[e].timeout && q.ev[e].deadline == deadline
  }

  /** Its deadline has come, it is taken for its callback, or the user deletes it or sets it anew. */
  predicate Ends(step: Step, s: State, e: Id) {
    Expires(step, s, e) || Runs(step, s, e) || Times(step, e) || (step.DoDel? && step.e == e)
  }

  lemma PendingStays(step: Step, s: State, s': State, e: Id, deadline: Time)
    requires StateOk(s) && Did(step, s, s') && Pending(s.q, e, deadline)
    requires !Ends(step, s, e)
    ensures Pending(s'.q, e, deadline)
  {
    hide StateOk, Did, NextTimeout, Taken, GetTime, Known;
    StepEvent(step, s, s', e);
  }

  /** A timeout stays pending until its deadline has come, its event runs for another reason, or the user deletes the
      event or sets its timeout anew. */
  lemma {:induction false} TimeoutStays(steps: seq<Step>, trace: seq<State>, k: nat, m: nat, e: Id, deadline: Time)
    requires Trace(steps, trace) && k <= m < |trace| && forall j :: 0 <= j < |trace| ==> StateOk(trace[j])
    requires Pending(trace[k].q, e, deadline)
    ensures Pending(trace[m].q, e, deadline) || exists j :: k <= j < m && Ends(steps[j], trace[j], e)
    decreases m - k
  {
    hide StateOk, Did, Ends, Pending;
    if k < m && !Ends(steps[k], trace[k], e) {
      PendingStays(steps[k], trace[k], trace[k + 1], e, deadline);
      TimeoutStays(steps, trace, k + 1, m, e, deadline);
    }
  }

  // ------------------------------------------------------------ persistent timers

  /** A persistent event was added with a period, and has not been added with another since. */
  predicate Armed(steps: seq<Step>, trace: seq<State>, i: nat, k: nat, e: Id, period: Time, common: Option<nat>)
    requires i < k <= |steps| && |trace| == |steps| + 1
  {
    && steps[i].DoAdd? && steps[i].e == e && steps[i].tv == Some((period, common)) && period != 0
    && MayCall(trace[i].phase, steps[i].inLoop) && UserEvent(trace[i].q, e) && trace[i].q.ev[e].persist
    && Known(steps[i].tv, trace[i].q.commons) && !(Inserts(trace[i].q.ev[e]) && steps[i].ioRes == -1)
    && forall j :: i < j < k ==> !Times(steps[j], e)
  }

  /** The period of a persistent event is known to the base. */
  predicate HasPeriod(s: State, e: Id, period: Time, common: Option<nat>) {
    && UserEvent(s.q, e) && s.q.ev[e].persist && e in s.ioTimeout && s.ioTimeout[e] == (period, common)
    && (common.Some? ==> common.value < |s.q.commons|)
  }

  lemma StepKeepsPeriod(step: Step, s: State, s': State, e: Id, period: Time, common: Option<nat>)
    requires StateOk(s) && Did(step, s, s') && HasPeriod(s, e, period, common) && !Times(step, e)
    ensures HasPeriod(s', e, period, common)
  {
    hide StateOk, Did, EventAfter;
    StepEvent(step, s, s', e);
    StepFrame(step, s, s', e);
  }

  lemma StepAdds(step: Step, s: State, s': State)
    requires step.DoAdd? && Did(step, s, s') && MayCall(s.phase, step.inLoop) && UserEvent(s.q, step.e)
    requires Known(step.tv, s.q.commons)
    ensures AddDid(s, s', step.e, step.tv, step.now, step.ioRes, step.inLoop)
  {
    hide AddDid;
  }

  lemma AddSetsPeriod(step: Step, s: State, s': State, e: Id, period: Time, common: Option<nat>)
    requires StateOk(s) && Did(step, s, s') && step.DoAdd? && step.e == e && step.tv == Some((period, common))
    requires MayCall(s.phase, step.inLoop) && UserEvent(s.q, e) && s.q.ev[e].persist
    requires Known(step.tv, s.q.commons) && !(Inserts(s.q.ev[e]) && step.ioRes == -1)
    ensures HasPeriod(s', e, period, common)
  {
    hide StateOk, Did, EventAfter, AddDid;
    StepEvent(step, s, s', e);
    StepAdds(step, s, s');
    AddFrame(s, s', e, step.tv, step.now, step.ioRes, step.inLoop);
  }

  lemma {:induction false} PeriodStays(steps: seq<Step>, trace: seq<State>, i: nat, k: nat, e: Id, period: Time,
                                       common: Option<nat>)
    requires Trace(steps, trace) && forall j :: 0 <= j < |trace| ==> StateOk(trace[j])
    requires i < k <= |steps| && Armed(steps, trace, i, k, e, period, common)
    ensures HasPeriod(trace[k], e, period, common)
    decreases k
  {
    hide StateOk, Did, HasPeriod;
    if k == i + 1 {
      AddSetsPeriod(steps[i], trace[i], trace[k], e, period, common);
    } else {
      PeriodStays(steps, trace, i, k - 1, e, period, common);
      StepKeepsPeriod(steps[k - 1], trace[k - 1], trace[k], e, period, common);
    }
  }

  /** What taking a persistent event with a period makes of it. */
  lemma TakenAgain(r: Event, e: Id, ioTimeout: map<Id, (Time, Option<nat>)>, seen: Time, n: nat, ioRes: int)
    requires !r.internal && r.persist && e in ioTimeout && ioTimeout[e].0 != 0
    requires ioTimeout[e].1.Some? ==> ioTimeout[e].1.value < n
    ensures var (period, common) := ioTimeout[e];
            var r' := Taken(r, NextTimeout(r, e, ioTimeout, seen, n), ioRes);
            && !r'.active
            && if r.io && !r.inserted && ioRes == -1 then r' == r.(active := false)
               else
                 && r'.timeout && r'.common == common && r'.inserted == (r.inserted || r.io)
                 && r'.deadline == if r.byTimeout && seen <= r.deadline + period then r.deadline + period
                                   else seen + period
  {
  }

  /** Once a persistent event has been added with a period, it has its timeout pending again whenever it is taken for
      its callback: a period after its last deadline if it ran because of that and the time is not past, and otherwise
      a period from now.  The fd map may refuse it; then only its activation is gone. */
  lemma RunsAgain(steps: seq<Step>, trace: seq<State>, i: nat, k: nat, e: Id, period: Time, common: Option<nat>)
    requires Trace(steps, trace) && forall j :: 0 <= j < |trace| ==> StateOk(trace[j])
    requires i < k < |steps| && Armed(steps, trace, i, k, e, period, common) && Runs(steps[k], trace[k], e)
    ensures e in trace[k].q.ev && e in trace[k + 1].q.ev && !trace[k + 1].q.ev[e].active
    ensures var s, r, r' := trace[k], trace[k].q.ev[e], trace[k + 1].q.ev[e];
            var seen := if s.tvCache.Some? then s.tvCache.value else steps[k].now;
            if r.io && !r.inserted && steps[k].ioRes == -1 then r' == r.(active := false)
            else
              && r'.timeout && r'.common == common && r'.inserted == (r.inserted || r.io)
              && r'.deadline == if r.byTimeout && seen <= r.deadline + period then r.deadline + period
                                else seen + period
  {
    hide StateOk, Did, Taken, NextTimeout;
    PeriodStays(steps, trace, i, k, e, period, common);
    var s := trace[k];
    StepEvent(steps[k], s, trace[k + 1], e);
    TakenAgain(s.q.ev[e], e, s.ioTimeout, GetTime(s.tvCache, steps[k].now), |s.q.commons|, steps[k].ioRes);
  }

  /** Active because of the deadline `d`, and not waiting for another. */
  predicate RangAt(q: Queues, e: Id, d: Time) {
    ActiveUser(q, e) && q.ev[e].byTimeout && !q.ev[e].timeout && q.ev[e].deadline == d
  }

  lemma ExpiryRings(step: Step, s: State, s': State, e: Id)
    requires StateOk(s) && Did(step, s, s') && UserEvent(s.q, e) && Expires(step, s, e)
    ensures RangAt(s'.q, e, s.q.ev[e].deadline)
  {
    hide StateOk, Did, GetTime, Added, Taken, NextTimeout, Known, MayCall;
    StepEvent(step, s, s', e);
  }

  lemma StepKeepsRinging(step: Step, s: State, s': State, e: Id, d: Time)
    requires StateOk(s) && Did(step, s, s') && RangAt(s.q, e, d) && !Retires(step, s, e)
    ensures RangAt(s'.q, e, d)
  {
    hide StateOk, Did, NextTimeout, GetTime, Known, Reportable;
    StepEvent(step, s, s', e);
  }

  lemma {:induction false} RingsOn(steps: seq<Step>, trace: seq<State>, j: nat, k: nat, e: Id, d: Time)
    requires Trace(steps, trace) && forall n :: 0 <= n < |trace| ==> StateOk(trace[n])
    requires j <= k < |trace| && RangAt(trace[j].q, e, d)
    requires forall n :: j <= n < k ==> !Retires(steps[n], trace[n], e)
    ensures RangAt(trace[k].q, e, d)
    decreases k - j
  {
    hide StateOk, Did, Retires, RangAt;
    if j < k {
      StepKeepsRinging(steps[j], trace[j], trace[j + 1], e, d);
      RingsOn(steps, trace, j + 1, k, e, d);
    }
  }

  /** A persistent timer keeps its rhythm: when its deadline has come, and it is taken for its callback after that, its
      next deadline is a period after the last, however late the callback is, as long as that is not past. */
  lemma KeepsRhythm(steps: seq<Step>, trace: seq<State>, i: nat, j: nat, k: nat, e: Id, period: Time,
                    common: Option<nat>)
    requires Trace(steps, trace) && forall n :: 0 <= n < |trace| ==> StateOk(trace[n])
    requires i < j < k < |steps| && Armed(steps, trace, i, k, e, period, common)
    requires UserEvent(trace[j].q, e) && Expires(steps[j], trace[j], e) && Runs(steps[k], trace[k], e)
    requires forall n :: j < n < k ==> !Retires(steps[n], trace[n], e)
    ensures e in trace[k].q.ev && e in trace[k + 1].q.ev
    ensures var d, r, r' := trace[j].q.ev[e].deadline, trace[k].q.ev[e], trace[k + 1].q.ev[e];
            var seen := if trace[k].tvCache.Some? then trace[k].tvCache.value else steps[k].now;
            !(r.io && !r.inserted && steps[k].ioRes == -1) ==>
              r'.timeout && r'.deadline == if seen <= d + period then d + period else seen + period
  {
    hide StateOk, Did, Armed, Retires, Runs;
    assert Did(steps[j], trace[j], trace[j + 1]);
    ExpiryRings(steps[j], trace[j], trace[j + 1], e);
    RingsOn(steps, trace, j + 1, k, e, trace[j].q.ev[e].deadline);
    RunsAgain(steps, trace, i, k, e, period, common);
  }

  /** The event is not active because of a timeout. */
  predicate NotRinging(q: Queues, e: Id) {
    UserEvent(q, e) && !(q.ev[e].active && q.ev[e].byTimeout)
  }

  lemma StepKeepsQuiet(step: Step, s: State, s': State, e: Id)
    requires StateOk(s) && Did(step, s, s') && NotRinging(s.q, e) && !Expires(step, s, e)
    ensures NotRinging(s'.q, e)
  {
    hide StateOk, Did, NextTimeout, GetTime, Known, Reportable;
    StepEvent(step, s, s', e);
  }

  lemma {:induction false} QuietOn(steps: seq<Step>, trace: seq<State>, j: nat, k: nat, e: Id)
    requires Trace(steps, trace) && forall n :: 0 <= n < |trace| ==> StateOk(trace[n])
    requires j <= k < |trace| && NotRinging(trace[j].q, e)
    requires forall n :: j <= n < k ==> !Expires(steps[n], trace[n], e)
    ensures NotRinging(trace[k].q, e)
    decreases k - j
  {
    hide StateOk, Did, Expires, NotRinging;
    if j < k {
      StepKeepsQuiet(steps[j], trace[j], trace[j + 1], e);
      QuietOn(steps, trace, j + 1, k, e);
    }
  }

  /** A persistent event that runs for another reason has its timeout start anew: if it was not active at some time, and
      its deadline has not come since, its next one is a period from when it is taken. */
  lemma StartsAnew(steps: seq<Step>, trace: seq<State>, i: nat, j: nat, k: nat, e: Id, period: Time,
                   common: Option<nat>)
    requires Trace(steps, trace) && forall n :: 0 <= n < |trace| ==> StateOk(trace[n])
    requires i < k < |steps| && Armed(steps, trace, i, k, e, period, common) && Runs(steps[k], trace[k], e)
    requires j < k && UserEvent(trace[j].q, e) && !trace[j].q.ev[e].active
    requires forall n :: j <= n < k ==> !Expires(steps[n], trace[n], e)
    ensures e in trace[k].q.ev && e in trace[k + 1].q.ev
    ensures var r, r' := trace[k].q.ev[e], trace[k + 1].q.ev[e];
            var seen := if trace[k].tvCache.Some? then trace[k].tvCache.value else steps[k].now;
            !(r.io && !r.inserted && steps[k].ioRes == -1) ==> r'.timeout && r'.deadline == seen + period
  {
    hide StateOk, Did, Armed, Expires;
    QuietOn(steps, trace, j, k, e);
    HeadPriority(trace[k]);
    hide Runs;
    RunsAgain(steps, trace, i, k, e, period, common);
  }
}
