/** Whole runs of a group of bufferevents: what each step does, and what holds after any number of them. */
module RateRuns {
  import opened Common
  import opened Lists
  import opened RateLimit
  import opened RateGroup

  /** What happens to a group; members are known by their places. */
  datatype GroupStep =
    | DoJoinEnd(k: nat)
    | DoLeave(k: nat)
    | DoShare(k: nat, d: Dir)
    | DoUse(k: nat, d: Dir, bytes: nat, first: nat)
    | DoRefill(tick: nat, first: nat)
    | DoDecrement(d: Dir, bytes: nat, first: nat)

  /** Anything that can happen: bufferevents are made, live their own life, join the group, and leave it, perhaps to
      come back. */
  datatype Step =
    | DoNew
    | DoOwn(i: nat, own: Own)
    | DoJoin(i: nat)
    | DoGroup(step: GroupStep)

  /** A group and all bufferevents, at one moment. */
  datatype Moment = Moment(
    members: seq<Bufferevent>, suspended: set<Dir>, pending: set<Dir>, bucket: Bucket,
    pool: seq<Bufferevent>, bevs: map<Bufferevent, Bev>)

  ghost function Snap(g: Group, pool: seq<Bufferevent>): Moment
    reads g, pool
  {
    Moment(g.members, g.suspended, g.pending, g.bucket, pool, map m | m in pool :: m.Now())
  }

  /** A group among bufferevents, of which some are its members. */
  ghost predicate PoolOk(g: Group, pool: seq<Bufferevent>)
    reads g, g.members, pool
  {
    && g.Valid()
    && (forall k :: 0 <= k < |g.members| ==> g.members[k] in pool)
    && (forall i :: 0 <= i < |pool| ==> pool[i].Valid() && (pool[i] in g.members || Outsider(pool[i])))
  }

  // ------------------------------------------------------------ what each step does

  /** The members that other threads have locked: those at the busy places, and those that are being added. */
  ghost function HeldIn(s: Moment, busy: set<nat>): set<Bufferevent> {
    set k | 0 <= k < |s.members| && (k in busy || (s.members[k] in s.bevs && s.bevs[s.members[k]].joining != {}))
      :: s.members[k]
  }

  /** Of the bufferevents only `m` has changed, and it is now `b`. */
  ghost predicate OneChanged(s: Moment, s': Moment, m: Bufferevent, b: Bev) {
    && s'.pool == s.pool && s'.bevs.Keys == s.bevs.Keys
    && forall c :: c in s.bevs ==> s'.bevs[c] == if c == m then b else s.bevs[c]
  }

  predicate SameGroup(s: Moment, s': Moment) {
    s'.members == s.members && s'.suspended == s.suspended && s'.pending == s.pending && s'.bucket == s.bucket
  }

  /** Of the bufferevents only the members' suspensions have changed. */
  ghost predicate FlagsChanged(s: Moment, s': Moment) {
    && s'.pool == s.pool && s'.members == s.members && s'.bevs.Keys == s.bevs.Keys
    && forall c :: c in s.bevs ==>
         s'.bevs[c] == if c in s.members then s.bevs[c].(flags := s'.bevs[c].flags, on := s'.bevs[c].on) else s.bevs[c]
  }

  ghost predicate Did(minShare: nat, cfg: Cfg, step: Step, busy: set<nat>, s: Moment, s': Moment) {
    match step
    case DoNew =>
      && SameGroup(s, s') && |s'.pool| == |s.pool| + 1
      && var m := s'.pool[|s.pool|]; m !in s.bevs && s'.pool == s.pool + [m] && s'.bevs == s.bevs[m := NEW_BEV]
    case DoOwn(i, own) =>
      if i < |s.pool| && s.pool[i] in s.bevs then
        SameGroup(s, s') && exists b :: OwnDid(own, s.bevs[s.pool[i]], b) && OneChanged(s, s', s.pool[i], b)
      else s' == s
    case DoJoin(i) =>
      if i < |s.pool| && s.pool[i] in s.bevs && s.pool[i] !in s.members then JoinDid(s, s', s.pool[i]) else s' == s
    case DoGroup(DoJoinEnd(k)) =>
      if k < |s.members| && s.members[k] in s.bevs then JoinEndDid(s, s', s.members[k]) else s' == s
    case DoGroup(DoLeave(k)) =>
      if k < |s.members| && s.members[k] in s.bevs && s.bevs[s.members[k]].joining == {} then LeaveDid(s, s', k)
        else s' == s
    case DoGroup(DoShare(k, d)) =>
      if k < |s.members| && s.members[k] in s.bevs then ShareDid(s, s', s.members[k], d) else s' == s
    case DoGroup(DoUse(k, d, bytes, first)) =>
      if k < |s.members| && s.members[k] in s.bevs && first <= |s.members| then
        UseDid(s, s', s.members[k], d, bytes, HeldIn(s, busy), minShare)
      else s' == s
    case DoGroup(DoRefill(tick, first)) =>
      if tick < TWO_32 && first <= |s.members| then RefillAllDid(s, s', tick, HeldIn(s, busy), minShare, cfg)
        else s' == s
    case DoGroup(DoDecrement(d, bytes, first)) =>
      if first <= |s.members| && -TWO_63 <= s.bucket.limit.Get(d) - bytes then DrawDid(s, s', d, bytes, HeldIn(s, busy))
      else s' == s
  }

  ghost predicate JoinDid(s: Moment, s': Moment, m: Bufferevent)
    requires m in s.bevs
  {
    && s'.members == s.members + [m] && s'.suspended == s.suspended && s'.pending == s.pending && s'.bucket == s.bucket
    && OneChanged(s, s', m, s.bevs[m].(joining := s.suspended))
  }

  ghost predicate JoinEndDid(s: Moment, s': Moment, m: Bufferevent)
    requires m in s.bevs
  {
    && SameGroup(s, s') && m in s'.bevs && Suspended(s.bevs[m].flags, s'.bevs[m].flags, s.bevs[m].joining)
    && OneChanged(s, s', m, s.bevs[m].(joining := {}, flags := s'.bevs[m].flags, on := s'.bevs[m].on))
  }

  ghost predicate LeaveDid(s: Moment, s': Moment, k: nat)
    requires k < |s.members| && s.members[k] in s.bevs
  {
    var m := s.members[k];
    && s'.members == s.members[..k] + s.members[k + 1..]
    && s'.suspended == s.suspended && s'.pending == s.pending && s'.bucket == s.bucket
    && m in s'.bevs && Freed(s.bevs[m].flags, s'.bevs[m].flags, {Dir.Read, Dir.Write})
    && OneChanged(s, s', m, s.bevs[m].(flags := s'.bevs[m].flags, on := s'.bevs[m].on))
  }

  /** A member that had missed the suspension of its group is suspended. */
  ghost predicate ShareDid(s: Moment, s': Moment, m: Bufferevent, d: Dir)
    requires m in s.bevs
  {
    && SameGroup(s, s') && m in s'.bevs
    && s'.bevs[m].flags == s.bevs[m].flags + (if d in s.suspended then {(d, OfGroup)} else {})
    && OneChanged(s, s', m, s.bevs[m].(flags := s'.bevs[m].flags, on := s'.bevs[m].on))
  }

  /** The group's bucket has paid for `bytes`. */
  ghost predicate DrawDid(s: Moment, s': Moment, d: Dir, bytes: nat, held: set<Bufferevent>) {
    && s'.bucket == Spend(s.bucket, d, bytes)
    && Drawn(s'.bucket, d, AnyHeld(s.members, held), s.suspended, s.pending, s'.suspended, s'.pending)
    && FlagsChanged(s, s')
    && forall c :: c in s.bevs && c in s.members ==>
         s'.bevs[c].flags == Redone(s.bevs[c].flags, s'.bucket, d, d in s.suspended, c in held)
  }

  ghost predicate UseDid(s: Moment, s': Moment, m: Bufferevent, d: Dir, bytes: nat, held: set<Bufferevent>,
                         minShare: nat)
    requires m in s.bevs && |s.members| > 0
  {
    var share := if d in s.suspended then 0 else ShareOf(s.bucket.limit.Get(d), |s.members|, minShare);
    if 0 < bytes <= share then DrawDid(s, s', d, bytes, held) else ShareDid(s, s', m, d)
  }

  ghost predicate RefillAllDid(s: Moment, s': Moment, tick: nat, held: set<Bufferevent>, minShare: nat, cfg: Cfg) {
    && s'.bucket == Update(s.bucket, cfg, tick)
    && var coming := Coming(s.suspended, s.pending, s'.bucket, minShare);
    && s'.suspended == s.suspended - coming && s'.pending == (if AnyHeld(s.members, held) then coming else {})
    && FlagsChanged(s, s')
    && forall c :: c in s.bevs && c in s.members ==>
         Freed(s.bevs[c].flags, s'.bevs[c].flags, if c in held then {} else coming)
  }

  // ------------------------------------------------------------ the steps

  method NewStep(g: Group, pool: seq<Bufferevent>) returns (pool': seq<Bufferevent>)
    requires PoolOk(g, pool)
    ensures PoolOk(g, pool') && forall i :: 0 <= i < |pool'| ==> pool'[i] in pool || fresh(pool'[i])
    ensures Did(g.minShare, g.cfg, DoNew, {}, old(Snap(g, pool)), Snap(g, pool'))
  {
    hide BackendOk, BandwidthOk, CfgOk, BucketOk, NoDup;
    ghost var s := Snap(g, pool);
    var m := new Bufferevent();
    pool' := pool + [m];
    assert Snap(g, pool').bevs == s.bevs[m := NEW_BEV];
  }

  lemma OwnKeeps(own: Own, b: Bev, b': Bev)
    requires OwnDid(own, b, b')
    ensures b'.joining == b.joining && forall x: Dir :: (x, OfGroup) in b'.flags <==> (x, OfGroup) in b.flags
  {
    hide Update, Metered;
  }

  method OwnStep(g: Group, pool: seq<Bufferevent>, i: nat, own: Own)
    requires PoolOk(g, pool) && i < |pool|
    modifies pool
    ensures PoolOk(g, pool) && Did(g.minShare, g.cfg, DoOwn(i, own), {}, old(Snap(g, pool)), Snap(g, pool))
  {
    hide BackendOk, BandwidthOk, CfgOk, BucketOk, NoDup, OwnDid;
    var m := pool[i];
    PerformOwn(m, own);
    OwnKeeps(own, old(m.Now()), m.Now());
    forall k | 0 <= k < |g.members| ensures MemberOk(g.members[k], g.suspended + g.pending) {
      assert old(MemberOk(g.members[k], g.suspended + g.pending));
      if g.members[k] == m {
        assert forall d: Dir :: Waits(m, d) ==> old(Waits(m, d));
      } else {
        assert g.members[k] in g.members;
      }
    }
    assert OneChanged(old(Snap(g, pool)), Snap(g, pool), m, m.Now());
  }

  method JoinStep(g: Group, pool: seq<Bufferevent>, i: nat)
    requires PoolOk(g, pool) && i < |pool| && pool[i] !in g.members
    modifies g, pool
    ensures PoolOk(g, pool) && g.bucket == old(g.bucket) && JoinDid(old(Snap(g, pool)), Snap(g, pool), pool[i])
  {
    hide BackendOk, BandwidthOk, CfgOk, BucketOk, NoDup;
    g.JoinStart(pool[i]);
  }

  lemma LeftOne(ms: seq<Bufferevent>, k: nat)
    requires k < |ms|
    ensures forall i :: 0 <= i < |ms| && i != k ==> ms[i] in ms[..k] + ms[k + 1..]
    ensures forall x :: x in ms[..k] + ms[k + 1..] ==> x in ms
  {
    var rest := ms[..k] + ms[k + 1..];
    forall i | 0 <= i < |ms| && i != k ensures ms[i] in rest {
      assert rest[if i < k then i else i - 1] == ms[i];
    }
  }

  method JoinEndStep(g: Group, pool: seq<Bufferevent>, k: nat)
    requires PoolOk(g, pool) && k < |g.members|
    modifies g.members
    ensures PoolOk(g, pool) && g.members == old(g.members)
            && JoinEndDid(old(Snap(g, pool)), Snap(g, pool), g.members[k])
  {
    hide BackendOk, BandwidthOk, CfgOk, BucketOk, NoDup, Suspended;
    g.JoinEnd(g.members[k]);
  }

  method LeaveStep(g: Group, pool: seq<Bufferevent>, k: nat)
    requires PoolOk(g, pool) && k < |g.members| && g.members[k].joining == {}
    modifies g, g.members
    ensures PoolOk(g, pool) && g.bucket == old(g.bucket) && LeaveDid(old(Snap(g, pool)), Snap(g, pool), k)
  {
    hide BackendOk, BandwidthOk, CfgOk, BucketOk, NoDup, Freed;
    LeftOne(g.members, k);
    g.Leave(k);
  }

  method ShareStep(g: Group, pool: seq<Bufferevent>, k: nat, d: Dir)
    requires PoolOk(g, pool) && k < |g.members|
    modifies g.members
    ensures PoolOk(g, pool) && g.members == old(g.members)
            && ShareDid(old(Snap(g, pool)), Snap(g, pool), g.members[k], d)
  {
    hide BackendOk, BandwidthOk, CfgOk, BucketOk, NoDup;
    var share := g.Share(g.members[k], d);
  }

  /** The locks that are held are those of the moment. */
  lemma HeldNow(g: Group, pool: seq<Bufferevent>, busy: set<nat>)
    requires PoolOk(g, pool)
    ensures HeldIn(Snap(g, pool), busy) ==
              set k | 0 <= k < |g.members| && (k in busy || g.members[k].joining != {}) :: g.members[k]
  {
    hide BackendOk, BandwidthOk, CfgOk, BucketOk, NoDup;
  }

  method DrawStep(g: Group, pool: seq<Bufferevent>, d: Dir, bytes: nat, held: set<Bufferevent>, first: nat)
    requires PoolOk(g, pool) && first <= |g.members| && g.Locks(held) && -TWO_63 <= g.bucket.limit.Get(d) - bytes
    modifies g, g.members
    ensures PoolOk(g, pool) && DrawDid(old(Snap(g, pool)), Snap(g, pool), d, bytes, held)
  {
    hide BackendOk, BandwidthOk, CfgOk, BucketOk, NoDup, Spend, Drawn, Redone, AnyHeld;
    g.Decrement(d, bytes, held, first);
  }

  /** A member uses a share, or part of one. */
  method UseDraws(g: Group, pool: seq<Bufferevent>, k: nat, d: Dir, bytes: nat, held: set<Bufferevent>, first: nat)
    requires PoolOk(g, pool) && k < |g.members| && first <= |g.members| && g.Locks(held)
    requires d !in g.suspended && 0 < bytes <= ShareOf(g.bucket.limit.Get(d), |g.members|, g.minShare)
    modifies g, g.members
    ensures PoolOk(g, pool) && DrawDid(old(Snap(g, pool)), Snap(g, pool), d, bytes, held)
    ensures g.minShare >= 1 && old(g.Floor()) ==> g.Floor()
  {
    hide BackendOk, BandwidthOk, CfgOk, BucketOk, NoDup, Spend, Drawn, Redone, AnyHeld;
    var share := g.UseShare(g.members[k], d, bytes, held, first);
  }

  /** A member asks for its share, and uses none of it. */
  method UseMisses(g: Group, pool: seq<Bufferevent>, k: nat, d: Dir, bytes: nat, held: set<Bufferevent>, first: nat)
    requires PoolOk(g, pool) && k < |g.members| && first <= |g.members| && g.Locks(held)
    requires bytes == 0 || d in g.suspended || bytes > ShareOf(g.bucket.limit.Get(d), |g.members|, g.minShare)
    modifies g, g.members
    ensures PoolOk(g, pool) && g.members == old(g.members)
            && ShareDid(old(Snap(g, pool)), Snap(g, pool), g.members[k], d)
    ensures g.minShare >= 1 && old(g.Floor()) ==> g.Floor()
  {
    hide BackendOk, BandwidthOk, CfgOk, BucketOk, NoDup, Spend, Drawn, Redone, AnyHeld;
    var share := g.UseShare(g.members[k], d, bytes, held, first);
    forall c | c in pool ensures c == g.members[k] || c.Now() == old(c.Now()) {
      assert c !in g.members ==> unchanged(c);
    }
  }

  method UseStep(g: Group, pool: seq<Bufferevent>, k: nat, d: Dir, bytes: nat, held: set<Bufferevent>, first: nat)
    requires PoolOk(g, pool) && k < |g.members| && first <= |g.members| && g.Locks(held)
    modifies g, g.members
    ensures PoolOk(g, pool) && UseDid(old(Snap(g, pool)), Snap(g, pool), old(g.members[k]), d, bytes, held, g.minShare)
    ensures g.minShare >= 1 && old(g.Floor()) ==> g.Floor()
  {
    hide BackendOk, BandwidthOk, CfgOk, BucketOk, NoDup, DrawDid, ShareDid, Outsider, Group.Steady;
    if d !in g.suspended && 0 < bytes <= ShareOf(g.bucket.limit.Get(d), |g.members|, g.minShare) {
      UseDraws(g, pool, k, d, bytes, held, first);
    } else {
      UseMisses(g, pool, k, d, bytes, held, first);
    }
  }

  method RefillStep(g: Group, pool: seq<Bufferevent>, tick: nat, held: set<Bufferevent>, first: nat)
    requires PoolOk(g, pool) && tick < TWO_32 && first <= |g.members| && g.Locks(held)
    modifies g, g.members
    ensures PoolOk(g, pool) && RefillAllDid(old(Snap(g, pool)), Snap(g, pool), tick, held, g.minShare, g.cfg)
    ensures old(g.Floor()) ==> g.Floor()
  {
    hide BackendOk, BandwidthOk, CfgOk, BucketOk, NoDup, Update, AnyHeld, Freed;
    UpdateRaises(g.bucket, g.cfg, tick);
    g.Refill(tick, held, first);
    StillSuspended(old(g.suspended), old(g.pending), g.bucket, g.minShare, g.suspended);
    ghost var coming := Coming(old(g.suspended), old(g.pending), g.bucket, g.minShare);
    assert g.pending == if AnyHeld(g.members, held) then coming else {};
  }

  lemma StillSuspended(was: set<Dir>, pending: set<Dir>, bucket: Bucket, minShare: nat, now: set<Dir>)
    requires was * pending == {} && forall d: Dir :: d in now <==> d in was && bucket.limit.Get(d) < minShare
    ensures now == was - Coming(was, pending, bucket, minShare)
  {
    forall d: Dir ensures d in was ==> d !in pending {
      assert d in was && d in pending ==> d in was * pending;
    }
  }

  // ------------------------------------------------------------ any run

  /** What the group's bucket gives is used as it is handed out. */
  predicate Fair(step: Step) {
    !(step.DoGroup? && step.step.DoDecrement?)
  }

  method GroupStepIn(g: Group, pool: seq<Bufferevent>, step: GroupStep, busy: set<nat>)
    requires PoolOk(g, pool)
    modifies g, g.members
    ensures PoolOk(g, pool) && Did(g.minShare, g.cfg, DoGroup(step), busy, old(Snap(g, pool)), Snap(g, pool))
    ensures g.minShare >= 1 && old(g.Floor()) && !step.DoDecrement? ==> g.Floor()
  {
    hide BackendOk, BandwidthOk, CfgOk, BucketOk, NoDup, Outsider, Group.Steady, HeldIn;
    hide JoinEndDid, LeaveDid, ShareDid, UseDid, RefillAllDid, DrawDid;
    var held := g.HeldBy(busy);
    HeldNow(g, pool, busy);
    match step {
      case DoJoinEnd(k) => if k < |g.members| { JoinEndStep(g, pool, k); }
      case DoLeave(k) => if k < |g.members| && g.members[k].joining == {} { LeaveStep(g, pool, k); }
      case DoShare(k, d) => if k < |g.members| { ShareStep(g, pool, k, d); }
      case DoUse(k, d, bytes, first) =>
        if k < |g.members| && first <= |g.members| { UseStep(g, pool, k, d, bytes, held, first); }
      case DoRefill(tick, first) => if tick < TWO_32 && first <= |g.members| { RefillStep(g, pool, tick, held, first); }
      case DoDecrement(d, bytes, first) =>
        if first <= |g.members| && -TWO_63 <= g.bucket.limit.Get(d) - bytes {
          DrawStep(g, pool, d, bytes, held, first);
        }
    }
  }

  /** One step; a step that is not possible is skipped.  `busy` are the places of members that other threads have
      locked. */
  method Perform(g: Group, pool: seq<Bufferevent>, step: Step, busy: set<nat>) returns (pool': seq<Bufferevent>)
    requires PoolOk(g, pool)
    modifies g, g.members, pool
    ensures PoolOk(g, pool') && forall i :: 0 <= i < |pool'| ==> pool'[i] in pool || fresh(pool'[i])
    ensures Did(g.minShare, g.cfg, step, busy, old(Snap(g, pool)), Snap(g, pool'))
    ensures g.minShare >= 1 && old(g.Floor()) && Fair(step) ==> g.Floor()
  {
    hide BackendOk, BandwidthOk, CfgOk, BucketOk, NoDup, Outsider, Group.Steady, JoinDid;
    pool' := pool;
    match step {
      case DoNew => pool' := NewStep(g, pool);
      case DoOwn(i, own) => if i < |pool| { OwnStep(g, pool, i, own); }
      case DoJoin(i) => if i < |pool| && pool[i] !in g.members { JoinStep(g, pool, i); }
      case DoGroup(step) => GroupStepIn(g, pool, step, busy);
    }
  }

  /** What was so at each moment of a run, and how one moment led to the next. */
  ghost predicate Trace(minShare: nat, cfg: Cfg, steps: seq<Step>, busy: seq<set<nat>>, trace: seq<Moment>) {
    && |busy| == |steps| && |trace| == |steps| + 1
    && forall k :: 0 <= k < |steps| ==> Did(minShare, cfg, steps[k], busy[k], trace[k], trace[k + 1])
  }

  /** No direction is deeper in debt than a share can bring it. */
  ghost predicate AboveFloor(bucket: Bucket, minShare: nat) {
    forall d: Dir :: bucket.limit.Get(d) >= 1 - minShare
  }

  /** No member is stranded: a direction that is enabled, but does not run, waits for something other than bandwidth, or
      a timer of its own is pending, or the group still has it to unsuspend. */
  ghost predicate NobodyStranded(s: Moment) {
    forall m, d: Dir :: m in s.members && m in s.bevs && d in s.bevs[m].enabled && d !in s.bevs[m].on ==>
      var b := s.bevs[m];
      (d, Else) in b.flags || (b.cfg.Some? && (b.armed || b.firing)) || d in s.suspended || d in s.pending
  }

  /** The backends run exactly the directions that are enabled and not suspended, and what the group has still to
      unsuspend is not suspended. */
  ghost predicate Consistent(s: Moment) {
    && (forall k :: 0 <= k < |s.members| ==> s.members[k] in s.bevs)
    && (forall m :: m in s.bevs ==> BackendOk(s.bevs[m].on, s.bevs[m].enabled, s.bevs[m].flags))
    && s.suspended * s.pending == {} && NoDup(s.members)
  }

  lemma PoolConsistent(g: Group, pool: seq<Bufferevent>)
    requires PoolOk(g, pool)
    ensures Consistent(Snap(g, pool))
  {
    hide BackendOk, BandwidthOk, CfgOk, BucketOk, NoDup, Outsider;
  }

  lemma NoneStranded(g: Group, pool: seq<Bufferevent>)
    requires PoolOk(g, pool)
    ensures NobodyStranded(Snap(g, pool)) && BucketOk(g.bucket, g.cfg)
  {
    var s := Snap(g, pool);
    forall m, d: Dir | m in s.members && m in s.bevs && d in s.bevs[m].enabled && d !in s.bevs[m].on
      ensures (d, Else) in m.flags || (m.cfg.Some? && (m.armed || m.firing)) || d in s.suspended || d in s.pending
    {
      g.NotStranded(m, d);
    }
  }

  method NewGroup(cfg: Cfg, tick: nat, share: nat) returns (g: Group, pool: seq<Bufferevent>)
    requires CfgOk(cfg) && tick < TWO_32
    ensures fresh(g) && pool == [] && PoolOk(g, pool) && g.Floor()
    ensures g.cfg == cfg && g.minShare == Min(share, Min(cfg.rate.read, cfg.rate.write))
    ensures Snap(g, pool) == Moment([], {}, {}, Bucket(cfg.rate, tick), [], map[])
  {
    hide CfgOk, BucketOk;
    g := new Group(cfg, tick, share);
    pool := [];
  }

  /** Any run of a group: in whatever order bufferevents join, leave, come back and use bandwidth, timers fire and locks
      are held, nobody is ever stranded.  When shares are used as they are handed out, no limit falls below one minus
      the least share. */
  method Run(cfg: Cfg, tick: nat, share: nat, steps: seq<Step>, busy: seq<set<nat>>)
    returns (g: Group, pool: seq<Bufferevent>, ghost trace: seq<Moment>)
    requires CfgOk(cfg) && tick < TWO_32 && |busy| == |steps|
    ensures fresh(g) && fresh(pool) && fresh(g.members) && PoolOk(g, pool)
    ensures g.cfg == cfg && g.minShare == Min(share, Min(cfg.rate.read, cfg.rate.write))
    ensures Trace(g.minShare, cfg, steps, busy, trace) && trace[|steps|] == Snap(g, pool)
    ensures trace[0] == Moment([], {}, {}, Bucket(cfg.rate, tick), [], map[])
    ensures forall k :: 0 <= k < |trace| ==> NobodyStranded(trace[k]) && BucketOk(trace[k].bucket, cfg)
    ensures forall k :: 0 <= k < |trace| ==> Consistent(trace[k])
    ensures share >= 1 && (forall k :: 0 <= k < |steps| ==> Fair(steps[k])) ==>
              forall k :: 0 <= k < |trace| ==> AboveFloor(trace[k].bucket, g.minShare)
  {
    hide BackendOk, BandwidthOk, CfgOk, BucketOk, NoDup, Outsider, Group.Steady, Did, NobodyStranded, Consistent;
    ShareIsSome(cfg, share);
    g, pool := NewGroup(cfg, tick, share);
    NoneStranded(g, pool);
    PoolConsistent(g, pool);
    trace := [Snap(g, pool)];
    for k := 0 to |steps|
      invariant PoolOk(g, pool) && fresh(g) && fresh(pool) && fresh(g.members)
      invariant g.cfg == cfg && g.minShare == Min(share, Min(cfg.rate.read, cfg.rate.write))
      invariant |trace| == k + 1 && trace[k] == Snap(g, pool)
      invariant trace[0] == Moment([], {}, {}, Bucket(cfg.rate, tick), [], map[])
      invariant forall j :: 0 <= j < k ==> Did(g.minShare, cfg, steps[j], busy[j], trace[j], trace[j + 1])
      invariant forall j :: 0 <= j < |trace| ==> NobodyStranded(trace[j]) && BucketOk(trace[j].bucket, cfg)
      invariant forall j :: 0 <= j < |trace| ==> Consistent(trace[j])
      invariant share >= 1 && (forall j :: 0 <= j < k ==> Fair(steps[j])) ==>
                  forall j :: 0 <= j < |trace| ==> AboveFloor(trace[j].bucket, g.minShare)
    {
      pool := Perform(g, pool, steps[k], busy[k]);
      NoneStranded(g, pool);
      PoolConsistent(g, pool);
      trace := trace + [Snap(g, pool)];
    }
  }

  lemma TicksAhead(t: nat, n: nat)
    requires t < TWO_32 && 0 < n <= INT_MAX
    ensures Ticks(t, (t + n) % TWO_32) == n
  {
  }

  /** After any such run, two refills, `n1` and then `n2` ticks later, leave no direction of the group suspended,
      whichever locks are held at each of them. */
  method RunThenRefill(cfg: Cfg, tick: nat, share: nat, steps: seq<Step>, busy: seq<set<nat>>,
                       n1: nat, n2: nat, busy1: set<nat>, busy2: set<nat>)
    returns (g: Group, ghost trace: seq<Moment>)
    requires CfgOk(cfg) && tick < TWO_32 && |busy| == |steps| && share >= 1
    requires forall k :: 0 <= k < |steps| ==> Fair(steps[k])
    requires 0 < n1 <= INT_MAX && 0 < n2 <= INT_MAX
    ensures g.Valid() && g.Floor() && Trace(g.minShare, cfg, steps, busy, trace)
    ensures g.cfg == cfg && g.minShare == Min(share, Min(cfg.rate.read, cfg.rate.write))
    ensures trace[0] == Moment([], {}, {}, Bucket(cfg.rate, tick), [], map[])
    ensures var last := trace[|steps|];
            var tick1 := (last.bucket.lastUpdated + n1) % TWO_32;
            g.members == last.members && g.bucket == Update(Update(last.bucket, cfg, tick1), cfg, (tick1 + n2) % TWO_32)
    ensures g.suspended == {}
  {
    hide BackendOk, BandwidthOk, NoDup, Outsider, Ticks, MemberOk, Did, NobodyStranded, Update;
    ShareIsSome(cfg, share);
    var pool;
    g, pool, trace := Run(cfg, tick, share, steps, busy);
    var held1 := g.HeldBy(busy1);
    var held2 := g.HeldBy(busy2);
    var t := g.bucket.lastUpdated;
    var tick1 := (t + n1) % TWO_32;
    TicksAhead(t, n1);
    TicksAhead(tick1, n2);
    g.RefillTwice(tick1, (tick1 + n2) % TWO_32, held1, held2, 0, 0);
  }

  // ------------------------------------------------------------ what a group may use

  /** What a step makes the group's bucket pay for. */
  function UsedBy(minShare: nat, step: Step, s: Moment, d: Dir): nat {
    match step
    case DoGroup(DoUse(k, x, bytes, first)) =>
      if x == d && k < |s.members| && s.members[k] in s.bevs && first <= |s.members| && d !in s.suspended
         && bytes <= ShareOf(s.bucket.limit.Get(d), |s.members|, minShare)
      then bytes else 0
    case DoGroup(DoDecrement(x, bytes, first)) =>
      if x == d && first <= |s.members| && -TWO_63 <= s.bucket.limit.Get(d) - bytes then bytes else 0
    case _ => 0
  }

  /** The ticks that a step credits. */
  function TicksOf(step: Step, s: Moment): nat {
    match step
    case DoGroup(DoRefill(tick, first)) =>
      var n := Ticks(s.bucket.lastUpdated, tick);
      if tick < TWO_32 && first <= |s.members| && 0 < n <= INT_MAX then n else 0
    case _ => 0
  }

  ghost function Used(minShare: nat, steps: seq<Step>, trace: seq<Moment>, d: Dir, m: nat): nat
    requires m <= |steps| < |trace|
  {
    if m == 0 then 0 else Used(minShare, steps, trace, d, m - 1) + UsedBy(minShare, steps[m - 1], trace[m - 1], d)
  }

  ghost function TicksSeen(steps: seq<Step>, trace: seq<Moment>, m: nat): nat
    requires m <= |steps| < |trace|
  {
    if m == 0 then 0 else TicksSeen(steps, trace, m - 1) + TicksOf(steps[m - 1], trace[m - 1])
  }

  lemma DrawPays(s: Moment, s': Moment, d: Dir, bytes: nat, held: set<Bufferevent>, x: Dir)
    requires DrawDid(s, s', d, bytes, held)
    ensures s'.bucket.limit.Get(x) == s.bucket.limit.Get(x) - if x == d then bytes else 0
  {
    SpendOne(s.bucket, d, bytes);
  }

  lemma RefillPays(s: Moment, s': Moment, tick: nat, held: set<Bufferevent>, minShare: nat, cfg: Cfg, d: Dir)
    requires RefillAllDid(s, s', tick, held, minShare, cfg) && CfgOk(cfg) && BucketOk(s.bucket, cfg) && tick < TWO_32
    ensures var n := Ticks(s.bucket.lastUpdated, tick);
            s'.bucket.limit.Get(d) <= s.bucket.limit.Get(d) + if 0 < n <= INT_MAX then n * cfg.rate.Get(d) else 0
  {
    UpdateExact(s.bucket, cfg, tick);
  }

  /** One step: nothing comes from nowhere. */
  lemma StepPays(minShare: nat, cfg: Cfg, step: Step, busy: set<nat>, s: Moment, s': Moment, d: Dir)
    requires Did(minShare, cfg, step, busy, s, s') && CfgOk(cfg) && BucketOk(s.bucket, cfg)
    ensures s'.bucket.limit.Get(d) + UsedBy(minShare, step, s, d) <=
              s.bucket.limit.Get(d) + TicksOf(step, s) * cfg.rate.Get(d)
  {
    hide DrawDid, RefillAllDid, BucketOk, CfgOk, OwnDid, HeldIn, Ticks, FlagsChanged, OneChanged;
    match step {
      case DoGroup(DoUse(k, x, bytes, first)) =>
        if k < |s.members| && s.members[k] in s.bevs && first <= |s.members| {
          var share := if x in s.suspended then 0 else ShareOf(s.bucket.limit.Get(x), |s.members|, minShare);
          if 0 < bytes <= share { DrawPays(s, s', x, bytes, HeldIn(s, busy), d); }
        }
      case DoGroup(DoRefill(tick, first)) =>
        if tick < TWO_32 && first <= |s.members| { RefillPays(s, s', tick, HeldIn(s, busy), minShare, cfg, d); }
      case DoGroup(DoDecrement(x, bytes, first)) =>
        if first <= |s.members| && -TWO_63 <= s.bucket.limit.Get(x) - bytes {
          DrawPays(s, s', x, bytes, HeldIn(s, busy), d);
        }
      case _ =>
    }
  }

  /** Over any run, what the members use together, and what the bucket still holds, is at most one rate to begin with
      and one for each tick that has passed. */
  lemma {:induction false} GroupBound(minShare: nat, cfg: Cfg, steps: seq<Step>, busy: seq<set<nat>>,
                                      trace: seq<Moment>, d: Dir, m: nat)
    requires CfgOk(cfg) && Trace(minShare, cfg, steps, busy, trace) && m <= |steps|
    requires trace[0].bucket.limit == cfg.rate && forall k :: 0 <= k < |trace| ==> BucketOk(trace[k].bucket, cfg)
    ensures Used(minShare, steps, trace, d, m) + trace[m].bucket.limit.Get(d)
              <= (1 + TicksSeen(steps, trace, m)) * cfg.rate.Get(d)
  {
    hide Did, UsedBy, TicksOf, BucketOk, CfgOk;
    if m > 0 {
      GroupBound(minShare, cfg, steps, busy, trace, d, m - 1);
      StepPays(minShare, cfg, steps[m - 1], busy[m - 1], trace[m - 1], trace[m], d);
      Distribute(TicksSeen(steps, trace, m - 1), TicksOf(steps[m - 1], trace[m - 1]), cfg.rate.Get(d));
    }
  }

  lemma Distribute(a: int, b: int, r: int)
    ensures (1 + (a + b)) * r == (1 + a) * r + b * r
  {
  }

  /** When each share is used before the next is asked for, the members together use, in any run, at most one rate for
      each tick, one more, and less than one share. */
  method FairUse(cfg: Cfg, tick: nat, share: nat, steps: seq<Step>, busy: seq<set<nat>>)
    returns (g: Group, ghost trace: seq<Moment>)
    requires CfgOk(cfg) && tick < TWO_32 && |busy| == |steps| && share >= 1
    requires forall k :: 0 <= k < |steps| ==> Fair(steps[k])
    ensures Trace(g.minShare, cfg, steps, busy, trace)
    ensures trace[0] == Moment([], {}, {}, Bucket(cfg.rate, tick), [], map[])
    ensures g.cfg == cfg && g.minShare == Min(share, Min(cfg.rate.read, cfg.rate.write))
    ensures forall d: Dir :: Used(g.minShare, steps, trace, d, |steps|) <
              (1 + TicksSeen(steps, trace, |steps|)) * cfg.rate.Get(d) + g.minShare
  {
    hide Did, NobodyStranded, CfgOk, BucketOk, Used, TicksSeen;
    var pool;
    g, pool, trace := Run(cfg, tick, share, steps, busy);
    forall d: Dir ensures Used(g.minShare, steps, trace, d, |steps|) <
                            (1 + TicksSeen(steps, trace, |steps|)) * cfg.rate.Get(d) + g.minShare
    {
      GroupBound(g.minShare, cfg, steps, busy, trace, d, |steps|);
    }
  }

  // ------------------------------------------------------------ how long a group is suspended

  /** The refills between two moments that have seen a tick pass. */
  ghost function Refills(steps: seq<Step>, trace: seq<Moment>, k: nat, m: nat): nat
    requires k <= m <= |steps| < |trace|
  {
    if m == k then 0 else Refills(steps, trace, k, m - 1) + if TicksOf(steps[m - 1], trace[m - 1]) > 0 then 1 else 0
  }

  /** A direction that is suspended gives no share, so that its limit only rises. */
  lemma OnlyRises(minShare: nat, cfg: Cfg, step: Step, busy: set<nat>, s: Moment, s': Moment, d: Dir)
    requires Did(minShare, cfg, step, busy, s, s') && Fair(step) && d in s.suspended
    requires CfgOk(cfg) && BucketOk(s.bucket, cfg)
    ensures var n := TicksOf(step, s);
            if n == 0 then s'.bucket.limit.Get(d) >= s.bucket.limit.Get(d)
            else && s'.bucket.limit.Get(d) == Min(s.bucket.limit.Get(d) + n * cfg.rate.Get(d), cfg.maximum.Get(d))
                 && (d in s'.suspended ==> s'.bucket.limit.Get(d) < minShare)
  {
    hide DrawDid, RefillAllDid, BucketOk, CfgOk, OwnDid, HeldIn, Ticks, FlagsChanged, OneChanged;
    match step {
      case DoGroup(DoUse(k, x, bytes, first)) =>
        if k < |s.members| && s.members[k] in s.bevs && first <= |s.members| {
          var share := if x in s.suspended then 0 else ShareOf(s.bucket.limit.Get(x), |s.members|, minShare);
          if 0 < bytes <= share { DrawPays(s, s', x, bytes, HeldIn(s, busy), d); }
        }
      case DoGroup(DoRefill(tick, first)) =>
        if tick < TWO_32 && first <= |s.members| { RefillRaises(s, s', tick, HeldIn(s, busy), minShare, cfg, d); }
      case _ =>
    }
  }

  lemma RefillRaises(s: Moment, s': Moment, tick: nat, held: set<Bufferevent>, minShare: nat, cfg: Cfg, d: Dir)
    requires RefillAllDid(s, s', tick, held, minShare, cfg) && CfgOk(cfg) && BucketOk(s.bucket, cfg) && tick < TWO_32
    ensures var n := Ticks(s.bucket.lastUpdated, tick);
            if 0 < n <= INT_MAX then
              s'.bucket.limit.Get(d) == Min(s.bucket.limit.Get(d) + n * cfg.rate.Get(d), cfg.maximum.Get(d))
            else s'.bucket.limit.Get(d) == s.bucket.limit.Get(d)
    ensures d in s'.suspended ==> s'.bucket.limit.Get(d) < minShare
  {
    UpdateExact(s.bucket, cfg, tick);
    hide Update, FlagsChanged, Freed, AnyHeld;
  }

  lemma OneRefill(limit: int, rate: int, maximum: int, minShare: int, n: int)
    requires 1 <= minShare <= rate <= maximum && n >= 1
    ensures limit >= 1 - minShare ==> Min(limit + n * rate, maximum) >= 1
    ensures limit >= 1 ==> Min(limit + n * rate, maximum) >= minShare
  {
    assert n * rate >= rate;
  }

  /** In a run in which shares are used as they are handed out, a direction of the group that is suspended all the while
      sees fewer than two refills: the second would bring it back. */
  lemma {:induction false} SuspendedBriefly(minShare: nat, cfg: Cfg, steps: seq<Step>, busy: seq<set<nat>>,
                                            trace: seq<Moment>, d: Dir, k: nat, m: nat)
    requires CfgOk(cfg) && Trace(minShare, cfg, steps, busy, trace) && k <= m <= |steps|
    requires 1 <= minShare <= cfg.rate.Get(d)
    requires forall j :: 0 <= j < |steps| ==> Fair(steps[j])
    requires forall j :: 0 <= j < |trace| ==> BucketOk(trace[j].bucket, cfg) && AboveFloor(trace[j].bucket, minShare)
    requires forall j :: k <= j <= m ==> d in trace[j].suspended
    ensures Refills(steps, trace, k, m) < 2
    ensures Refills(steps, trace, k, m) == 1 ==> trace[m].bucket.limit.Get(d) >= 1
    decreases m
  {
    hide Did, TicksOf, BucketOk, AboveFloor, Fair;
    if m > k {
      SuspendedBriefly(minShare, cfg, steps, busy, trace, d, k, m - 1);
      var s, s' := trace[m - 1], trace[m];
      OnlyRises(minShare, cfg, steps[m - 1], busy[m - 1], s, s', d);
      FloorOf(s.bucket, minShare, d);
      var n := TicksOf(steps[m - 1], s);
      if n > 0 { OneRefill(s.bucket.limit.Get(d), cfg.rate.Get(d), cfg.maximum.Get(d), minShare, n); }
    }
  }

  lemma FloorOf(bucket: Bucket, minShare: nat, d: Dir)
    requires AboveFloor(bucket, minShare)
    ensures bucket.limit.Get(d) >= 1 - minShare
  {
  }

  // ------------------------------------------------------------ a suspended group stops its members

  /** The member is suspended for its group. */
  ghost predicate StoppedFor(s: Moment, c: Bufferevent, d: Dir) {
    c in s.members && c in s.bevs && (d, OfGroup) in s.bevs[c].flags
  }

  lemma DrawStops(s: Moment, s': Moment, x: Dir, bytes: nat, held: set<Bufferevent>, d: Dir, c: Bufferevent)
    requires DrawDid(s, s', x, bytes, held) && c in s.members && c in s.bevs && d in s'.suspended
    ensures d !in s.suspended && c !in held ==> StoppedFor(s', c, d)
    ensures d in s.suspended && StoppedFor(s, c, d) ==> StoppedFor(s', c, d)
  {
    hide Spend, AnyHeld;
  }

  lemma RefillKeepsStopped(s: Moment, s': Moment, tick: nat, held: set<Bufferevent>, minShare: nat, cfg: Cfg, d: Dir,
                           c: Bufferevent)
    requires RefillAllDid(s, s', tick, held, minShare, cfg) && Consistent(s) && StoppedFor(s, c, d) && d in s'.suspended
    ensures StoppedFor(s', c, d)
  {
    hide Update, AnyHeld, BackendOk;
    assert d in s.suspended && d in s.pending ==> d in s.suspended * s.pending;
  }

  lemma OwnKeepsStopped(s: Moment, s': Moment, m: Bufferevent, own: Own, b: Bev, d: Dir, c: Bufferevent)
    requires m in s.bevs && OwnDid(own, s.bevs[m], b) && SameGroup(s, s') && OneChanged(s, s', m, b)
    requires StoppedFor(s, c, d)
    ensures StoppedFor(s', c, d)
  {
    OwnKeeps(own, s.bevs[m], b);
    hide OwnDid;
  }

  lemma LeaveKeepsStopped(s: Moment, s': Moment, k: nat, d: Dir, c: Bufferevent)
    requires k < |s.members| && s.members[k] in s.bevs && LeaveDid(s, s', k) && Consistent(s)
    requires StoppedFor(s, c, d) && c in s'.members
    ensures StoppedFor(s', c, d)
  {
    hide BackendOk, Freed;
    var rest := s.members[..k] + s.members[k + 1..];
    var i :| 0 <= i < |rest| && rest[i] == c;
    assert c == s.members[if i < k then i else i + 1];
  }

  lemma StepKeepsStopped(minShare: nat, cfg: Cfg, step: Step, busy: set<nat>, s: Moment, s': Moment, d: Dir,
                         c: Bufferevent)
    requires Did(minShare, cfg, step, busy, s, s') && Consistent(s) && StoppedFor(s, c, d)
    requires d in s.suspended && d in s'.suspended && c in s'.members
    ensures StoppedFor(s', c, d)
  {
    hide DrawDid, RefillAllDid, OwnDid, HeldIn, Consistent;
    match step {
      case DoOwn(i, own) =>
        if i < |s.pool| && s.pool[i] in s.bevs {
          var b :| OwnDid(own, s.bevs[s.pool[i]], b) && OneChanged(s, s', s.pool[i], b);
          OwnKeepsStopped(s, s', s.pool[i], own, b, d, c);
        }
      case DoGroup(DoLeave(k)) =>
        if k < |s.members| && s.members[k] in s.bevs && s.bevs[s.members[k]].joining == {} {
          LeaveKeepsStopped(s, s', k, d, c);
        }
      case DoGroup(DoUse(k, x, bytes, first)) =>
        if k < |s.members| && s.members[k] in s.bevs && first <= |s.members| {
          var share := if x in s.suspended then 0 else ShareOf(s.bucket.limit.Get(x), |s.members|, minShare);
          if 0 < bytes <= share { DrawStops(s, s', x, bytes, HeldIn(s, busy), d, c); }
        }
      case DoGroup(DoRefill(tick, first)) =>
        if tick < TWO_32 && first <= |s.members| {
          RefillKeepsStopped(s, s', tick, HeldIn(s, busy), minShare, cfg, d, c);
        }
      case DoGroup(DoDecrement(x, bytes, first)) =>
        if first <= |s.members| && -TWO_63 <= s.bucket.limit.Get(x) - bytes {
          DrawStops(s, s', x, bytes, HeldIn(s, busy), d, c);
        }
      case _ =>
    }
  }

  /** The step in which a direction of the group is suspended stops it in every member whose lock is free. */
  lemma SuspensionStops(minShare: nat, cfg: Cfg, step: Step, busy: set<nat>, s: Moment, s': Moment, d: Dir,
                        c: Bufferevent)
    requires Did(minShare, cfg, step, busy, s, s') && Consistent(s) && Consistent(s')
    requires d !in s.suspended && d in s'.suspended && c in s'.members && c !in HeldIn(s, busy)
    ensures c in s'.bevs && d !in s'.bevs[c].on
  {
    hide DrawDid, RefillAllDid, OwnDid, HeldIn, Consistent;
    match step {
      case DoGroup(DoUse(k, x, bytes, first)) => DrawMembers(s, s', x, bytes, HeldIn(s, busy), d, c);
      case DoGroup(DoRefill(tick, first)) => RefillSuspendsNone(s, s', tick, HeldIn(s, busy), minShare, cfg, d);
      case DoGroup(DoDecrement(x, bytes, first)) => DrawMembers(s, s', x, bytes, HeldIn(s, busy), d, c);
      case _ =>
    }
    StoppedIsOff(s', c, d);
  }

  lemma DrawMembers(s: Moment, s': Moment, x: Dir, bytes: nat, held: set<Bufferevent>, d: Dir, c: Bufferevent)
    requires DrawDid(s, s', x, bytes, held) && Consistent(s) && c in s'.members && c !in held
    requires d in s'.suspended && d !in s.suspended
    ensures StoppedFor(s', c, d)
  {
    assert s'.members == s.members && c in s.bevs;
    hide DrawDid, Consistent;
    DrawStops(s, s', x, bytes, held, d, c);
  }

  lemma RefillSuspendsNone(s: Moment, s': Moment, tick: nat, held: set<Bufferevent>, minShare: nat, cfg: Cfg, d: Dir)
    requires RefillAllDid(s, s', tick, held, minShare, cfg)
    ensures d in s'.suspended ==> d in s.suspended
  {
    hide Update, AnyHeld, FlagsChanged, Freed;
  }

  lemma StoppedIsOff(s: Moment, c: Bufferevent, d: Dir)
    requires Consistent(s) && StoppedFor(s, c, d)
    ensures d !in s.bevs[c].on
  {
  }

  /** As long as a direction of the group is suspended, a member in which it was stopped does not run it, whatever else
      happens to the member, unless it leaves. */
  lemma {:induction false} StaysStopped(minShare: nat, cfg: Cfg, steps: seq<Step>, busy: seq<set<nat>>,
                                        trace: seq<Moment>, d: Dir, c: Bufferevent, k: nat, m: nat)
    requires Trace(minShare, cfg, steps, busy, trace) && k <= m <= |steps|
    requires forall j :: 0 <= j < |trace| ==> Consistent(trace[j])
    requires forall j :: k <= j <= m ==> d in trace[j].suspended && c in trace[j].members
    requires StoppedFor(trace[k], c, d)
    ensures StoppedFor(trace[m], c, d) && d !in trace[m].bevs[c].on
    decreases m
  {
    hide Did, Consistent;
    if m > k {
      StaysStopped(minShare, cfg, steps, busy, trace, d, c, k, m - 1);
      StepKeepsStopped(minShare, cfg, steps[m - 1], busy[m - 1], trace[m - 1], trace[m], d, c);
    }
    StoppedIsOff(trace[m], c, d);
  }
}
