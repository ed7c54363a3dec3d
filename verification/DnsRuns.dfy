/** Whole runs of an evdns base: what each call does, and what holds after any number of them. */
module DnsRuns {
  import opened Common
  import opened Lists
  import opened DnsRequests

  datatype Step =
    | DoSubmit(x: Id)
    | DoFinish(x: Id)
    | DoResize(max: int)
    | DoSuspend
    | DoResume
    | DoServers(all: seq<Server>)

  /** Each request is in exactly one list, the one of its id if it is in flight, and the counts are right. */
  ghost predicate StateOk(s: State) {
    && HeadsOk(s.req, s.heads) && WaitingOk(s.req, s.waiting) && DistinctIds(s.req)
    && s.inflight == SumLen(s.heads) == |Inflight(s.req)|
    && 1 <= s.maxInflight <= MAX_INFLIGHT && |s.heads| == (s.maxInflight + 4) / 5
  }

  /** What a call makes of the state of a base; a call that is not possible is skipped. */
  ghost predicate Did(step: Step, s: State, s': State) {
    match step
    case DoSubmit(x) => if x !in s.req then SubmitDid(s, s', x) else s' == s
    case DoFinish(x) => if x in s.req && |s.heads| > 0 then PumpDid(Unlisted(s, x), s') else s' == s
    case DoResize(max) => s' == if max <= MAX_INFLIGHT then Resized(s, max) else s
    case DoSuspend => s' == Suspended(s)
    case DoResume => PumpDid(s, s')
    case DoServers(all) => s' == if all != [] then s.(servers := all) else s
  }

  method Perform(base: DnsBase, step: Step)
    requires base.Valid()
    modifies base
    ensures base.Valid() && StateOk(base.Now()) && Did(step, old(base.Now()), base.Now())
  {
    hide HeadsOk, WaitingOk, DistinctIds, Inflight, SumLen, FreeId, SubmitDid, PumpDid, Unlisted, Resized, Suspended;
    match step {
      case DoSubmit(x) => if x !in base.req { base.Submit(x); }
      case DoFinish(x) => if x in base.req { base.Finish(x); }
      case DoResize(max) => if max <= MAX_INFLIGHT { base.SetMaxInflight(max); }
      case DoSuspend => base.Suspend();
      case DoResume => base.Pump();
      case DoServers(all) => if all != [] { base.servers := all; }
    }
  }

  /** The requests that have been submitted and not finished. */
  function Pending(steps: seq<Step>): set<Id> {
    if steps == [] then {}
    else
      var before := Pending(steps[..|steps| - 1]);
      match steps[|steps| - 1]
      case DoSubmit(x) => before + {x}
      case DoFinish(x) => before - {x}
      case _ => before
  }

  /** The live requests are those submitted and not finished, each in exactly one list. */
  ghost predicate InStep(s: State, steps: seq<Step>) {
    StateOk(s) && s.req.Keys == Pending(steps)
  }

  lemma StepKeeps(steps: seq<Step>, step: Step, s: State, s': State)
    requires InStep(s, steps) && Did(step, s, s') && StateOk(s')
    ensures InStep(s', steps + [step])
  {
    HeadsThere(s);
    hide StateOk, PickOf, Hang, FreeId, Flat, Reversed, Remove;
    assert (steps + [step])[..|steps|] == steps;
  }

  /** The states of a base, one after each call. */
  ghost predicate Trace(steps: seq<Step>, trace: seq<State>) {
    |trace| == |steps| + 1 && forall k :: 0 <= k < |steps| ==> Did(steps[k], trace[k], trace[k + 1])
  }

  method NewBase() returns (base: DnsBase)
    ensures fresh(base) && base.Valid() && base.Now() == State(map[], NoLists(13), [], 0, 64, [])
    ensures InStep(base.Now(), [])
  {
    hide HeadsOk, WaitingOk, DistinctIds, Inflight, SumLen, NoLists;
    base := new DnsBase();
  }

  /** Any run: each call does what `Did` says, and `InStep` holds at every moment. */
  method Run(steps: seq<Step>) returns (base: DnsBase, ghost trace: seq<State>)
    ensures base.Valid() && Trace(steps, trace) && base.Now() == trace[|steps|]
    ensures trace[0] == State(map[], NoLists(13), [], 0, 64, [])
    ensures forall k :: 0 <= k < |trace| ==> InStep(trace[k], steps[..k])
  {
    hide DnsBase.Valid, Did, StateOk, NoLists, InStep, Pending;
    base := NewBase();
    ghost var first := base.Now();
    trace := [first];
    for k := 0 to |steps|
      invariant base.Valid() && fresh(base) && |trace| == k + 1 && base.Now() == trace[k] && trace[0] == first
      invariant forall j :: 0 <= j < k ==> Did(steps[j], trace[j], trace[j + 1])
      invariant forall j :: 0 <= j < |trace| ==> InStep(trace[j], steps[..j])
    {
      assert steps[..k + 1] == steps[..k] + [steps[k]];
      Perform(base, steps[k]);
      StepKeeps(steps[..k], steps[k], trace[k], base.Now());
      trace := trace + [base.Now()];
    }
  }

  // ------------------------------------------------------------ nobody waits in vain

  lemma PumpPumps(s: State, s': State)
    requires PumpDid(s, s')
    ensures Pumped(s')
  {
    hide PickOf, Hang;
  }

  lemma StepPumps(step: Step, s: State, s': State)
    requires Did(step, s, s') && !step.DoServers? && !step.DoResize? && Pumped(s) && |s.heads| > 0
    ensures Pumped(s')
  {
    hide PickOf, Hang, FreeId, Flat, Reversed, Remove, PumpDid;
    match step {
      case DoFinish(x) => if x in s.req { PumpPumps(Unlisted(s, x), s'); }
      case DoResume => PumpPumps(s, s');
      case _ =>
    }
  }

  /** Once all that could be sent off has been, nobody waits in vain until nameservers are added or the table is
      resized: as long as a request waits, the table is full or there is no nameserver. */
  lemma {:induction false} NobodyWaitsInVain(steps: seq<Step>, trace: seq<State>, k: nat, m: nat)
    requires Trace(steps, trace) && k <= m < |trace| && Pumped(trace[k])
    requires forall j :: 0 <= j < |trace| ==> StateOk(trace[j])
    requires forall j :: k <= j < m ==> !steps[j].DoServers? && !steps[j].DoResize?
    ensures Pumped(trace[m])
    decreases m - k
  {
    hide Did, Pumped, HeadsOk, WaitingOk, DistinctIds, Inflight, SumLen;
    if k < m {
      HeadsThere(trace[k]);
      StepPumps(steps[k], trace[k], trace[k + 1]);
      NobodyWaitsInVain(steps, trace, k + 1, m);
    }
  }

  lemma HeadsThere(s: State)
    requires StateOk(s)
    ensures |s.heads| > 0 && NoDup(s.waiting)
  {
  }

  // ------------------------------------------------------------ nobody is overtaken

  lemma AheadSuffix(s: seq<Id>, k: nat, x: Id, y: Id)
    requires Ahead(s, x, y) && k <= |s| && NoDup(s) && x in s[k..]
    ensures Ahead(s[k..], x, y)
  {
    var i, j :| 0 <= i < j < |s| && s[i] == x && s[j] == y;
    var n :| 0 <= n < |s[k..]| && s[k..][n] == x;
    assert s[k + n] == x;
    assert i == k + n;
    assert s[k..][j - k] == y;
  }

  lemma {:induction false} AheadRemove(s: seq<Id>, x: Id, y: Id, z: Id)
    requires Ahead(s, x, y) && z != x && z != y
    ensures Ahead(Remove(s, z), x, y)
    decreases |s|
  {
    var i, j :| 0 <= i < j < |s| && s[i] == x && s[j] == y;
    var rest := Remove(s[1..], z);
    if s[0] == z {
      assert s[1..][i - 1] == x && s[1..][j - 1] == y;
    } else if i > 0 {
      assert s[1..][i - 1] == x && s[1..][j - 1] == y;
      AheadRemove(s[1..], x, y, z);
      AheadBehind([s[0]], rest, [], x, y);
      assert [s[0]] + rest + [] == [s[0]] + rest;
    } else {
      assert s[1..][j - 1] == y;
      StaysIn(s[1..], y, z);
      var n :| 0 <= n < |rest| && rest[n] == y;
      assert ([s[0]] + rest)[0] == x && ([s[0]] + rest)[n + 1] == y;
    }
  }

  lemma {:induction false} StaysIn(s: seq<Id>, y: Id, z: Id)
    requires y in s && y != z
    ensures y in Remove(s, z)
    decreases |s|
  {
    if s[0] != y { StaysIn(s[1..], y, z); }
  }

  lemma SentAhead(s: State, s': State, k: nat, x: Id, y: Id)
    requires Sent(s, s', k) && Ahead(s.waiting, x, y) && NoDup(s.waiting) && x in s'.waiting
    ensures Ahead(s'.waiting, x, y)
  {
    hide Hang, PickOf, Ahead;
    AheadSuffix(s.waiting, k, x, y);
  }

  lemma StepAhead(step: Step, s: State, s': State, x: Id, y: Id)
    requires Did(step, s, s') && StateOk(s) && Ahead(s.waiting, x, y) && x in s'.waiting
    requires step != DoFinish(x) && step != DoFinish(y)
    ensures Ahead(s'.waiting, x, y)
  {
    HeadsThere(s);
    hide Hang, PickOf, Ahead, FreeId, Flat, Reversed, StateOk, Sent, Remove, NoDup;
    match step {
      case DoSubmit(z) =>
        if z !in s.req {
          AheadBehind([], s.waiting, [z], x, y);
          assert [] + s.waiting + [z] == s.waiting + [z];
        }
      case DoFinish(z) =>
        if z in s.req {
          var u := Unlisted(s, z);
          AheadRemove(s.waiting, x, y, z);
          StillOnce(s, z);
          SentAhead(u, s', Due(u), x, y);
        }
      case DoSuspend =>
        var first := Reversed(Flat(s.heads));
        AheadBehind(first, s.waiting, [], x, y);
        assert first + s.waiting + [] == first + s.waiting;
      case DoResume => SentAhead(s, s', Due(s), x, y);
      case _ =>
    }
  }

  lemma StillOnce(s: State, z: Id)
    requires StateOk(s) && z in s.req && |s.heads| > 0
    ensures NoDup(Unlisted(s, z).waiting)
  {
    hide HeadsOk, DistinctIds, Inflight, SumLen, Remove;
    if s.req[z].ns.None? { RemoveProps(s.waiting, z); }
  }

  /** While a request waits, no request that waits behind it is sent off or gets ahead of it, as long as neither of them
      is finished: not by pumping, not when all nameservers go, and not when the table is resized. */
  lemma {:induction false} NoOvertaking(steps: seq<Step>, trace: seq<State>, k: nat, m: nat, x: Id, y: Id)
    requires Trace(steps, trace) && k <= m < |trace| && forall j :: 0 <= j < |trace| ==> StateOk(trace[j])
    requires Ahead(trace[k].waiting, x, y) && forall j :: k <= j <= m ==> x in trace[j].waiting
    requires forall j :: k <= j < m ==> steps[j] != DoFinish(x) && steps[j] != DoFinish(y)
    ensures Ahead(trace[m].waiting, x, y)
    decreases m - k
  {
    hide Did, StateOk, Ahead;
    if k < m {
      StepAhead(steps[k], trace[k], trace[k + 1], x, y);
      NoOvertaking(steps, trace, k + 1, m, x, y);
    }
  }

  /** A request that is submitted while another waits does not get ahead of it. */
  lemma FirstCome(steps: seq<Step>, trace: seq<State>, k: nat, m: nat, x: Id, y: Id)
    requires Trace(steps, trace) && k < m < |trace| && forall j :: 0 <= j < |trace| ==> StateOk(trace[j])
    requires steps[k] == DoSubmit(y) && y !in trace[k].req && y in trace[k + 1].waiting
    requires forall j :: k <= j <= m ==> x in trace[j].waiting
    requires forall j :: k < j < m ==> steps[j] != DoFinish(x) && steps[j] != DoFinish(y)
    ensures Ahead(trace[m].waiting, x, y)
  {
    SubmittedLast(trace[k], trace[k + 1], x, y);
    hide Did, StateOk, Ahead, SubmitDid;
    NoOvertaking(steps, trace, k + 1, m, x, y);
  }

  lemma SubmittedLast(s: State, s': State, x: Id, y: Id)
    requires SubmitDid(s, s', y) && StateOk(s) && y !in s.req && x in s.waiting && y in s'.waiting
    ensures Ahead(s'.waiting, x, y)
  {
    assert WaitingOk(s.req, s.waiting);
    hide PickOf, Hang, FreeId, StateOk;
    assert s'.waiting == s.waiting + [y];
    var i :| 0 <= i < |s.waiting| && s.waiting[i] == x;
    assert s'.waiting[i] == x && s'.waiting[|s.waiting|] == y;
  }

  /** When all nameservers go, the requests that were in flight wait ahead of those that waited. */
  lemma SuspendedFirst(s: State, s': State, x: Id, y: Id)
    requires Did(DoSuspend, s, s') && StateOk(s) && s.servers != [] && x in s.req && s.req[x].ns.Some? && y in s.waiting
    ensures x in s'.req && s'.req[x].ns.None? && Ahead(s'.waiting, x, y)
  {
    hide Reversed, Flat;
    InFlat(s, x);
    ReversedHas(Flat(s.heads), x);
    var first := Reversed(Flat(s.heads));
    var i :| 0 <= i < |first| && first[i] == x;
    var j :| 0 <= j < |s.waiting| && s.waiting[j] == y;
    assert s'.waiting == first + s.waiting;
    assert s'.waiting[i] == x && s'.waiting[|first| + j] == y;
  }

  lemma InFlat(s: State, x: Id)
    requires StateOk(s) && x in s.req && s.req[x].ns.Some?
    ensures x in Flat(s.heads)
  {
    var b := s.req[x].transId % |s.heads|;
    assert HeadsOk(s.req, s.heads);
    assert x in s.heads[b];
    FlatHas(s.heads, b, x);
  }

  lemma {:induction false} FlatHas(heads: seq<seq<Id>>, b: nat, x: Id)
    requires b < |heads| && x in heads[b]
    ensures x in Flat(heads)
    decreases |heads|
  {
    if b > 0 { FlatHas(heads[1..], b - 1, x); }
  }

  lemma {:induction false} ReversedHas(s: seq<Id>, x: Id)
    requires x in s
    ensures x in Reversed(s)
    decreases |s|
  {
    if s[0] != x { ReversedHas(s[1..], x); }
  }

  // ------------------------------------------------------------ the table is not overfilled

  predicate Room(s: State) {
    s.inflight <= s.maxInflight
  }

  lemma StepKeepsRoom(step: Step, s: State, s': State)
    requires Did(step, s, s') && StateOk(s) && Room(s) && !step.DoResize?
    ensures Room(s') && s'.maxInflight == s.maxInflight
  {
    hide PickOf, Hang, FreeId, Flat, Reversed, Remove, HeadsOk, WaitingOk, DistinctIds, Inflight, SumLen, Assigned;
  }

  /** Until the table is resized, there are never more requests in flight than it allows. */
  lemma {:induction false} NeverOverfull(steps: seq<Step>, trace: seq<State>, k: nat, m: nat)
    requires Trace(steps, trace) && k <= m < |trace| && forall j :: 0 <= j < |trace| ==> StateOk(trace[j])
    requires Room(trace[k]) && forall j :: k <= j < m ==> !steps[j].DoResize?
    ensures Room(trace[m]) && trace[m].maxInflight == trace[k].maxInflight
    decreases m - k
  {
    hide Did, StateOk, Room;
    if k < m {
      StepKeepsRoom(steps[k], trace[k], trace[k + 1]);
      NeverOverfull(steps, trace, k + 1, m);
    }
  }

  // ------------------------------------------------------------ turns

  /** The head is up, and picked. */
  lemma PickHead(servers: seq<Server>)
    requires servers != [] && servers[0].up
    ensures PickOf(servers) == (Some(servers[0].name), servers[1..] + [servers[0]])
  {
    PickFirst(servers);
    assert servers[..1] == [servers[0]];
  }

  lemma TurnedOnce(servers: seq<Server>, k: nat, before: seq<Server>)
    requires 0 < k <= |servers| && before == servers[k - 1..] + servers[..k - 1]
    ensures before[0] == servers[k - 1] && before[1..] + [before[0]] == servers[k..] + servers[..k]
  {
    assert before[1..] == servers[k..] + servers[..k - 1];
    assert servers[..k] == servers[..k - 1] + [servers[k - 1]];
  }

  lemma {:induction false} RolledAllUp(servers: seq<Server>, k: nat)
    requires servers != [] && k <= |servers| && forall i :: 0 <= i < |servers| ==> servers[i].up
    ensures Rolled(servers, k) == servers[k..] + servers[..k]
    decreases k
  {
    hide PickOf;
    if k == 0 {
      assert servers[0..] + servers[..0] == servers;
    } else {
      RolledAllUp(servers, k - 1);
      TurnedOnce(servers, k, Rolled(servers, k - 1));
      PickHead(Rolled(servers, k - 1));
    }
  }

  /** While all nameservers are up, they take turns: each is picked once, in the order of the ring, and then it is the
      turn of the first again. */
  lemma TakeTurns(servers: seq<Server>, k: nat)
    requires k < |servers| && forall i :: 0 <= i < |servers| ==> servers[i].up
    ensures PickOf(Rolled(servers, k)).0 == Some(servers[k].name) && Rolled(servers, |servers|) == servers
  {
    hide Rolled;
    RolledAllUp(servers, k);
    PickHead(Rolled(servers, k));
    RolledAllUp(servers, |servers|);
  }
}
