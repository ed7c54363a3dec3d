/**
 Suspension for bandwidth (libevent/bufferevent_ratelim.c, libevent/bufferevent.c): bufferevents with their own
 buckets, and groups that share one.  The group lock nests inside the locks of its members, so a thread that holds
 it can only try to lock a member, and may fail.
 */
module RateGroup {
  import opened Common
  import opened Lists
  import opened RateLimit

  /** Why a direction is suspended; the last stands for everything but bandwidth. */
  datatype Reason = Bandwidth | OfGroup | Else

  type Flags = set<(Dir, Reason)>

  predicate Stopped(flags: Flags, d: Dir) {
    (d, Bandwidth) in flags || (d, OfGroup) in flags || (d, Else) in flags
  }

  /** The backend runs exactly the directions that are enabled and not suspended. */
  ghost predicate BackendOk(on: set<Dir>, enabled: set<Dir>, flags: Flags) {
    forall d: Dir :: d in on <==> d in enabled && !Stopped(flags, d)
  }

  /** An exhausted bucket has its direction suspended, and a suspended direction has a timer that will see to it. */
  ghost predicate BandwidthOk(flags: Flags, cfg: Option<Cfg>, bucket: Bucket, timer: bool) {
    && (cfg.Some? ==> CfgOk(cfg.value) && BucketOk(bucket, cfg.value)
                      && forall d: Dir :: bucket.limit.Get(d) <= 0 ==> (d, Bandwidth) in flags)
    && (forall d: Dir :: (d, Bandwidth) in flags ==> cfg.Some? && timer)
  }

  /** Only suspensions for the bandwidth of the bufferevent itself have changed. */
  ghost predicate BandwidthOnly(was: Flags, flags: Flags) {
    forall d: Dir, r: Reason :: r != Bandwidth ==> ((d, r) in flags <==> (d, r) in was)
  }

  /** Exactly the directions whose bucket is exhausted are suspended for it. */
  ghost predicate Metered(flags: Flags, bucket: Bucket) {
    forall d: Dir :: (d, Bandwidth) in flags <==> bucket.limit.Get(d) <= 0
  }

  /** Some direction is suspended for the bucket of the bufferevent. */
  predicate AnyMetered(flags: Flags) {
    (Dir.Read, Bandwidth) in flags || (Dir.Write, Bandwidth) in flags
  }

  /** Everything there is to a bufferevent at one moment. */
  datatype Bev = Bev(enabled: set<Dir>, on: set<Dir>, flags: Flags, cfg: Option<Cfg>, bucket: Bucket,
                     armed: bool, firing: bool, joining: set<Dir>)

  const NEW_BEV := Bev({}, {}, {}, None, Bucket(Pair(0, 0), 0), false, false, {})

  /** `struct bufferevent_private`, as far as it is about suspension. */
  class Bufferevent {
    var enabled: set<Dir>
    var on: set<Dir>
    var flags: Flags
    var cfg: Option<Cfg>
    var bucket: Bucket
    /** The refill timer is pending; its callback has been called but has not got the lock. */
    var armed: bool
    var firing: bool
    /** What a thread that adds this bufferevent to a group is about to suspend. */
    var joining: set<Dir>

    ghost function Now(): Bev
      reads this
    {
      Bev(enabled, on, flags, cfg, bucket, armed, firing, joining)
    }

    ghost predicate Valid()
      reads this
    {
      BackendOk(on, enabled, flags) && BandwidthOk(flags, cfg, bucket, armed || firing)
    }

    constructor ()
      ensures Valid() && Now() == NEW_BEV
    {
      enabled, on, flags, cfg, joining := {}, {}, {}, None, {};
      bucket := Bucket(Pair(0, 0), 0);
      armed, firing := false, false;
    }

    /** `bufferevent_suspend_read` and `bufferevent_suspend_write`. */
    method Suspend(d: Dir, what: Reason)
      requires BackendOk(on, enabled, flags)
      modifies this`on, this`flags
      ensures BackendOk(on, enabled, flags) && flags == old(flags) + {(d, what)}
    {
      if !Stopped(flags, d) { on := on - {d}; }
      flags := flags + {(d, what)};
    }

    /** `bufferevent_unsuspend_read` and `bufferevent_unsuspend_write`. */
    method Unsuspend(d: Dir, what: Reason)
      requires BackendOk(on, enabled, flags)
      modifies this`on, this`flags
      ensures BackendOk(on, enabled, flags) && flags == old(flags) - {(d, what)}
    {
      flags := flags - {(d, what)};
      if !Stopped(flags, d) && d in enabled { on := on + {d}; }
    }

    /** `bufferevent_enable` of one direction. */
    method Enable(d: Dir)
      requires Valid()
      modifies this`enabled, this`on
      ensures Valid() && enabled == old(enabled) + {d}
    {
      if !Stopped(flags, d) { on := on + {d}; }
      enabled := enabled + {d};
    }

    /** `bufferevent_disable` of one direction. */
    method Disable(d: Dir)
      requires Valid()
      modifies this`enabled, this`on
      ensures Valid() && enabled == old(enabled) - {d}
    {
      enabled := enabled - {d};
      on := on - {d};
    }

    /** The refill timer expires. */
    method TimerFires()
      requires Valid() && armed
      modifies this`armed, this`firing
      ensures Valid() && !armed && firing
    {
      armed, firing := false, true;
    }

    /** `_bev_refill_callback`: a direction stays suspended exactly when its bucket is still exhausted, and then the
        timer is set again. */
    method Refill(tick: nat)
      requires Valid() && firing && tick < TWO_32
      modifies this`on, this`flags, this`bucket, this`armed, this`firing
      ensures Valid() && !firing && BandwidthOnly(old(flags), flags)
      ensures if cfg.None? then bucket == old(bucket) && flags == old(flags) && armed == old(armed)
              else bucket == Update(old(bucket), cfg.value, tick) && Metered(flags, bucket)
                   && armed == (old(armed) || AnyMetered(flags))
    {
      hide Update, CfgOk, BucketOk;
      firing := false;
      if cfg.None? { return; }
      UpdateExact(bucket, cfg.value, tick);
      UpdateRaises(bucket, cfg.value, tick);
      bucket := Update(bucket, cfg.value, tick);
      var again := false;
      if (Dir.Read, Bandwidth) in flags {
        if bucket.limit.read > 0 { Unsuspend(Dir.Read, Bandwidth); } else { again := true; }
      }
      if (Dir.Write, Bandwidth) in flags {
        if bucket.limit.write > 0 { Unsuspend(Dir.Write, Bandwidth); } else { again := true; }
      }
      if again { armed := true; }
      forall d: Dir ensures (d, Bandwidth) in flags <==> bucket.limit.Get(d) <= 0 {
        match d case Read => case Write =>
      }
    }

    /** `bufferevent_update_buckets`, and the limit of the bufferevent itself in `_bufferevent_get_rlim_max`. */
    method OwnLimit(d: Dir, tick: nat) returns (limit: Option<int>)
      requires Valid() && tick < TWO_32
      modifies this`bucket
      ensures Valid() && limit == (if cfg.Some? then Some(bucket.limit.Get(d)) else None)
      ensures bucket == if cfg.Some? then Update(old(bucket), cfg.value, tick) else old(bucket)
    {
      hide Update, CfgOk, BucketOk;
      if cfg.None? { return None; }
      UpdateExact(bucket, cfg.value, tick);
      UpdateRaises(bucket, cfg.value, tick);
      bucket := Update(bucket, cfg.value, tick);
      limit := Some(bucket.limit.Get(d));
    }

    /** The bufferevent's own part of `_bufferevent_decrement_read_buckets` and its twin for writing. */
    method Decrement(d: Dir, bytes: nat)
      requires Valid() && (cfg.Some? ==> -TWO_63 <= bucket.limit.Get(d) - bytes)
      modifies this`on, this`flags, this`bucket, this`armed
      ensures Valid() && BandwidthOnly(old(flags), flags)
      ensures if cfg.None? then bucket == old(bucket) && flags == old(flags) && armed == old(armed)
              else bucket == Spend(old(bucket), d, bytes) && ((d, Bandwidth) in flags <==> bucket.limit.Get(d) <= 0)
                   && ((Opposite(d), Bandwidth) in flags <==> (Opposite(d), Bandwidth) in old(flags))
                   && armed == if bucket.limit.Get(d) <= 0 then true
                               else old(armed) && !((d, Bandwidth) in old(flags) && !AnyMetered(flags))
    {
      hide CfgOk;
      if cfg.None? { return; }
      forall x: Dir ensures bucket.limit.Get(x) - bytes <= Spend(bucket, d, bytes).limit.Get(x) <= bucket.limit.Get(x) {
        match x case Read => case Write =>
      }
      assert Spend(bucket, d, bytes).limit.Get(Opposite(d)) == bucket.limit.Get(Opposite(d));
      bucket := Spend(bucket, d, bytes);
      if bucket.limit.Get(d) <= 0 {
        Suspend(d, Bandwidth);
        armed := true;
      } else if (d, Bandwidth) in flags {
        if (Opposite(d), Bandwidth) !in flags { armed := false; }
        Unsuspend(d, Bandwidth);
      }
      forall x: Dir ensures (x, Bandwidth) in flags ==> x == d || x == Opposite(d) {
        match x case Read => case Write =>
      }
    }

    /** `bufferevent_set_rate_limit`; `same` tells that it is the very configuration that is in use. */
    method SetRateLimit(newCfg: Option<Cfg>, same: bool, tick: nat)
      requires Valid() && (newCfg.Some? ==> CfgOk(newCfg.value)) && tick < TWO_32
      requires same ==> cfg.Some? && cfg == newCfg
      modifies this`cfg, this`on, this`flags, this`bucket, this`armed
      ensures Valid() && cfg == newCfg && BandwidthOnly(old(flags), flags)
      ensures if same then bucket == old(bucket) && flags == old(flags) && armed == old(armed)
              else if newCfg.None? then bucket == old(bucket) && !armed
              else bucket == Reset(old(bucket), newCfg.value, tick, old(cfg).Some?) && Metered(flags, bucket)
                   && armed == (AnyMetered(flags) || (old(armed) && old(cfg).None?))
    {
      if newCfg.None? {
        cfg := None;
        Unsuspend(Dir.Read, Bandwidth);
        Unsuspend(Dir.Write, Bandwidth);
        armed := false;
        return;
      }
      if same { return; }
      var reinit := cfg.Some?;
      cfg := newCfg;
      bucket := Reset(bucket, newCfg.value, tick, reinit);
      if reinit { armed := false; }
      var suspended := false;
      if bucket.limit.read > 0 { Unsuspend(Dir.Read, Bandwidth); } else {
        Suspend(Dir.Read, Bandwidth);
        suspended := true;
      }
      if bucket.limit.write > 0 { Unsuspend(Dir.Write, Bandwidth); } else {
        Suspend(Dir.Write, Bandwidth);
        suspended := true;
      }
      if suspended { armed := true; }
      forall d: Dir ensures (d, Bandwidth) in flags <==> bucket.limit.Get(d) <= 0 {
        match d case Read => case Write =>
      }
    }
  }

  /** The member is suspended for its group, or is about to be. */
  ghost predicate Waits(m: Bufferevent, d: Dir)
    reads m
  {
    (d, OfGroup) in m.flags || d in m.joining
  }

  /** A member that waits is known to the group: the group is suspended, or has still to unsuspend members. */
  ghost predicate MemberOk(m: Bufferevent, known: set<Dir>)
    reads m
  {
    m.Valid() && forall d: Dir :: Waits(m, d) ==> d in known
  }

  ghost predicate AnyHeld(members: seq<Bufferevent>, held: set<Bufferevent>) {
    exists i :: 0 <= i < |members| && members[i] in held
  }

  /** What a member may use at once: its part of what is left, but not less than the least share. */
  function ShareOf(limit: int, n: nat, minShare: nat): int
    requires n > 0
  {
    Max(limit / n, minShare)
  }

  /** A share above the least one is an even part: all members can use theirs, and less than one octet for each is left
      over; and no member is kept from the least share. */
  lemma ShareIsEven(limit: int, n: nat, minShare: nat)
    requires n > 0
    ensures var share := ShareOf(limit, n, minShare);
            share >= minShare && (share > minShare ==> n * share <= limit < n * share + n)
            && (share == minShare ==> limit < n * minShare + n)
  {
    var q := limit / n;
    assert limit == n * q + limit % n;
    if q < minShare { AtLeast(n, minShare, q + 1); }
  }

  /** The directions that a refill tries to bring back. */
  function Coming(suspended: set<Dir>, pending: set<Dir>, bucket: Bucket, minShare: nat): set<Dir> {
    pending + set d | d in suspended && bucket.limit.Get(d) >= minShare
  }

  /** Suspensions for the group in the given directions are gone; all else stays. */
  ghost predicate Freed(was: Flags, flags: Flags, ds: set<Dir>) {
    forall d: Dir, r: Reason :: (d, r) in flags <==> (d, r) in was && !(r == OfGroup && d in ds)
  }

  /** Suspensions for the group in the given directions have been added; all else stays. */
  ghost predicate Suspended(was: Flags, flags: Flags, ds: set<Dir>) {
    forall d: Dir, r: Reason :: (d, r) in flags <==> (d, r) in was || (r == OfGroup && d in ds)
  }

  /** What using up the group's bucket does to the group. */
  ghost predicate Drawn(bucket: Bucket, d: Dir, anyHeld: bool, was: set<Dir>, wasPending: set<Dir>,
                        suspended: set<Dir>, pending: set<Dir>) {
    if bucket.limit.Get(d) <= 0 then suspended == was + {d} && pending == wasPending - {d}
    else if d in was then suspended == was - {d} && pending == if anyHeld then wasPending + {d} else wasPending - {d}
    else suspended == was && pending == wasPending
  }

  /** What it does to a member, which may be locked. */
  function Redone(flags: Flags, bucket: Bucket, d: Dir, was: bool, locked: bool): Flags {
    if locked then flags
    else if bucket.limit.Get(d) <= 0 then flags + {(d, OfGroup)}
    else if was then flags - {(d, OfGroup)}
    else flags
  }

  /** `struct bufferevent_rate_limit_group`. */
  class Group {
    var members: seq<Bufferevent>
    var suspended: set<Dir>
    var pending: set<Dir>
    var bucket: Bucket
    const cfg: Cfg
    const minShare: nat

    ghost predicate Valid()
      reads this, members
    {
      && NoDup(members)
      && (forall i :: 0 <= i < |members| ==> MemberOk(members[i], suspended + pending))
      && Steady()
    }

    /** What holds of the group itself.  A group that is not suspended has something left, at least when a share is
        not nothing. */
    ghost predicate Steady()
      reads this
    {
      && CfgOk(cfg) && BucketOk(bucket, cfg) && suspended * pending == {}
      && (forall d: Dir :: minShare <= cfg.rate.Get(d))
      && (forall d: Dir :: bucket.limit.Get(d) < Min(1, minShare) ==> d in suspended)
    }

    /** The locks that other threads have include those of members that are being added. */
    ghost predicate Locks(held: set<Bufferevent>)
      reads this, members
    {
      forall i :: 0 <= i < |members| ==> members[i].joining != {} ==> members[i] in held
    }

    /** `bufferevent_rate_limit_group_new`, with `bufferevent_rate_limit_group_set_min_share`. */
    constructor (cfg: Cfg, tick: nat, share: nat)
      requires CfgOk(cfg) && tick < TWO_32
      ensures Valid() && Floor() && members == [] && this.cfg == cfg && suspended == {} && pending == {}
      ensures bucket == Bucket(cfg.rate, tick)
      ensures minShare == Min(share, Min(cfg.rate.read, cfg.rate.write))
    {
      assert 1 <= cfg.rate.Get(Dir.Read) <= cfg.maximum.Get(Dir.Read)
             && 1 <= cfg.rate.Get(Dir.Write) <= cfg.maximum.Get(Dir.Write);
      this.cfg := cfg;
      members, suspended, pending := [], {}, {};
      bucket := Reset(Bucket(Pair(0, 0), 0), cfg, tick, false);
      minShare := Min(share, Min(cfg.rate.read, cfg.rate.write));
      new;
      forall d: Dir ensures minShare <= cfg.rate.Get(d) && bucket.limit.Get(d) > 0 {
        match d case Read => case Write =>
      }
    }

    /** `_bev_group_suspend_reading` and `_bev_group_suspend_writing`.  `held` are the locks that other threads have. */
    method Suspend(d: Dir, held: set<Bufferevent>)
      requires NoDup(members) && forall i :: 0 <= i < |members| ==> MemberOk(members[i], suspended + pending + {d})
      modifies this`suspended, this`pending, members`on, members`flags
      ensures suspended == old(suspended) + {d} && pending == old(pending) - {d}
      ensures forall i :: 0 <= i < |members| ==> MemberOk(members[i], suspended + pending)
      ensures forall i :: 0 <= i < |members| ==>
                members[i].flags == old(members[i].flags) + (if members[i] in held then {} else {(d, OfGroup)})
    {
      hide BackendOk, BandwidthOk, Stopped;
      ghost var known := suspended + pending + {d};
      suspended := suspended + {d};
      pending := pending - {d};
      assert known == suspended + pending;
      var i := 0;
      while i < |members|
        invariant 0 <= i <= |members| && forall j :: 0 <= j < |members| ==> MemberOk(members[j], known)
        invariant forall j :: 0 <= j < |members| ==>
                    members[j].flags == old(members[j].flags)
                                        + (if j >= i || members[j] in held then {} else {(d, OfGroup)})
        modifies members`on, members`flags
      {
        var m := members[i];
        if m !in held { SuspendMember(m, d, known); }
        i := i + 1;
      }
    }

    /** One of the two loops of FOREACH_RANDOM_ORDER. */
    method UnsuspendRange(lo: nat, hi: nat, d: Dir, held: set<Bufferevent>, ghost known: set<Dir>) returns (again: bool)
      requires NoDup(members) && lo <= hi <= |members|
      requires forall i :: 0 <= i < |members| ==> MemberOk(members[i], known)
      requires forall i :: 0 <= i < |members| ==> members[i].joining != {} ==> members[i] in held
      modifies members`on, members`flags
      ensures forall i :: 0 <= i < |members| ==> MemberOk(members[i], known)
      ensures !again ==> forall i :: lo <= i < hi ==> MemberOk(members[i], known - {d})
      ensures forall i :: 0 <= i < |members| ==>
                old(MemberOk(members[i], known - {d})) ==> MemberOk(members[i], known - {d})
      ensures again <==> exists i :: lo <= i < hi && members[i] in held
      ensures forall i :: 0 <= i < |members| ==>
                members[i].flags == old(members[i].flags)
                                    - (if lo <= i < hi && members[i] !in held then {(d, OfGroup)} else {})
    {
      hide BackendOk, BandwidthOk, Stopped;
      again := false;
      var i := lo;
      while i < hi
        invariant lo <= i <= hi
        invariant forall j :: 0 <= j < |members| ==> MemberOk(members[j], known)
        invariant !again ==> forall j :: lo <= j < i ==> MemberOk(members[j], known - {d})
        invariant forall j :: 0 <= j < |members| ==>
                    old(MemberOk(members[j], known - {d})) ==> MemberOk(members[j], known - {d})
        invariant again <==> exists j :: lo <= j < i && members[j] in held
        invariant forall j :: 0 <= j < |members| ==>
                    members[j].flags == old(members[j].flags)
                                        - (if lo <= j < i && members[j] !in held then {(d, OfGroup)} else {})
        modifies members`on, members`flags
      {
        var m := members[i];
        if m !in held { UnsuspendMember(m, d, known); } else { again := true; }
        i := i + 1;
      }
    }

    /** `_bev_group_unsuspend_reading` and `_bev_group_unsuspend_writing`: a member that could not be locked makes it
        necessary to come back. */
    method Unsuspend(d: Dir, held: set<Bufferevent>, first: nat)
      requires NoDup(members) && first <= |members|
      requires forall i :: 0 <= i < |members| ==> MemberOk(members[i], suspended + pending)
      requires forall i :: 0 <= i < |members| ==> members[i].joining != {} ==> members[i] in held
      modifies this`suspended, this`pending, members`on, members`flags
      ensures suspended == old(suspended) - {d}
      ensures pending == if AnyHeld(members, held) then old(pending) + {d} else old(pending) - {d}
      ensures forall i :: 0 <= i < |members| ==> MemberOk(members[i], suspended + pending)
      ensures forall i :: 0 <= i < |members| ==>
                members[i].flags == old(members[i].flags) - (if members[i] in held then {} else {(d, OfGroup)})
    {
      hide BackendOk, BandwidthOk, Stopped;
      ghost var known := suspended + pending;
      suspended := suspended - {d};
      var again1 := UnsuspendRange(first, |members|, d, held, known);
      var again2 := UnsuspendRange(0, first, d, held, known);
      pending := if again1 || again2 then pending + {d} else pending - {d};
      if again1 || again2 {
        ForgetAll(members, known, suspended + pending);
      } else {
        ForgetAll(members, known - {d}, suspended + pending);
      }
    }

    /** The group's part of `_bev_group_refill_callback` for one direction. */
    method RefillDir(d: Dir, held: set<Bufferevent>, first: nat)
      requires NoDup(members) && first <= |members| && Locks(held)
      requires forall i :: 0 <= i < |members| ==> MemberOk(members[i], suspended + pending)
      requires suspended * pending == {}
      modifies this`suspended, this`pending, members`on, members`flags
      ensures forall i :: 0 <= i < |members| ==> MemberOk(members[i], suspended + pending)
      ensures suspended * pending == {}
      ensures var comes := d in Coming(old(suspended), old(pending), bucket, minShare);
              && suspended == (if comes then old(suspended) - {d} else old(suspended))
              && pending == (if comes && AnyHeld(members, held) then old(pending) + {d} else old(pending) - {d})
              && forall i :: 0 <= i < |members| ==>
                   members[i].flags == old(members[i].flags)
                                       - if comes && members[i] !in held then {(d, OfGroup)} else {}
    {
      hide MemberOk;
      if d in pending || (d in suspended && bucket.limit.Get(d) >= minShare) {
        Unsuspend(d, held, first);
      }
    }

    /** `_bev_group_refill_callback`: a suspended direction stays so exactly when the bucket is still short of a
        share. */
    method Refill(tick: nat, held: set<Bufferevent>, first: nat)
      requires Valid() && tick < TWO_32 && first <= |members| && Locks(held)
      modifies this`bucket, this`suspended, this`pending, members`on, members`flags
      ensures Valid() && bucket == Update(old(bucket), cfg, tick)
      ensures forall d: Dir :: d in suspended <==> d in old(suspended) && bucket.limit.Get(d) < minShare
      ensures var coming := Coming(old(suspended), old(pending), bucket, minShare);
              && (forall d: Dir :: d in pending <==> d in coming && AnyHeld(members, held))
              && forall i :: 0 <= i < |members| ==>
                   Freed(old(members[i].flags), members[i].flags, if members[i] in held then {} else coming)
    {
      hide Update, CfgOk, BucketOk, MemberOk, NoDup, Freed, AnyHeld;
      UpdateExact(bucket, cfg, tick);
      UpdateRaises(bucket, cfg, tick);
      bucket := Update(bucket, cfg, tick);
      RefillDirs(held, first);
    }

    /** Its two halves. */
    method RefillDirs(held: set<Bufferevent>, first: nat)
      requires NoDup(members) && first <= |members| && Locks(held)
      requires forall i :: 0 <= i < |members| ==> MemberOk(members[i], suspended + pending)
      requires suspended * pending == {}
      modifies this`suspended, this`pending, members`on, members`flags
      ensures forall i :: 0 <= i < |members| ==> MemberOk(members[i], suspended + pending)
      ensures suspended * pending == {}
      ensures forall d: Dir :: d in suspended <==> d in old(suspended) && bucket.limit.Get(d) < minShare
      ensures var coming := Coming(old(suspended), old(pending), bucket, minShare);
              && (forall d: Dir :: d in pending <==> d in coming && AnyHeld(members, held))
              && forall i :: 0 <= i < |members| ==>
                   Freed(old(members[i].flags), members[i].flags, if members[i] in held then {} else coming)
    {
      hide MemberOk, NoDup, AnyHeld;
      ghost var coming := Coming(suspended, pending, bucket, minShare);
      RefillDir(Dir.Read, held, first);
      ghost var more := Coming(suspended, pending, bucket, minShare);
      assert Dir.Write in more <==> Dir.Write in coming;
      RefillDir(Dir.Write, held, first);
      forall d: Dir ensures d in pending <==> d in coming && AnyHeld(members, held) {
        match d case Read => case Write =>
      }
      forall i | 0 <= i < |members|
        ensures Freed(old(members[i].flags), members[i].flags, if members[i] in held then {} else coming)
      {
        forall d: Dir, r: Reason
          ensures (d, r) in members[i].flags <==>
                  (d, r) in old(members[i].flags) && !(r == OfGroup && members[i] !in held && d in coming)
        {
          match d case Read => case Write =>
        }
      }
    }

    /** The group's part of `_bufferevent_decrement_read_buckets` and its twin. */
    method Decrement(d: Dir, bytes: nat, held: set<Bufferevent>, first: nat)
      requires Valid() && first <= |members| && Locks(held) && -TWO_63 <= bucket.limit.Get(d) - bytes
      modifies this`bucket, this`suspended, this`pending, members`on, members`flags
      ensures Valid() && bucket == Spend(old(bucket), d, bytes)
      ensures Drawn(bucket, d, AnyHeld(members, held), old(suspended), old(pending), suspended, pending)
      ensures forall i :: 0 <= i < |members| ==>
                members[i].flags == Redone(old(members[i].flags), bucket, d, d in old(suspended), members[i] in held)
    {
      hide CfgOk, MemberOk, NoDup;
      SpendOne(bucket, d, bytes);
      bucket := Spend(bucket, d, bytes);
      if bucket.limit.Get(d) <= 0 {
        ForgetAll(members, suspended + pending, suspended + pending + {d});
        Suspend(d, held);
      } else if d in suspended {
        Unsuspend(d, held, first);
      }
    }

    /** The group's part of `_bufferevent_get_rlim_max`; a member that missed the suspension is suspended now. */
    method Share(m: Bufferevent, d: Dir) returns (share: int)
      requires Valid() && m in members
      modifies m`on, m`flags
      ensures Valid()
      ensures share == if d in suspended then 0 else ShareOf(bucket.limit.Get(d), |members|, minShare)
      ensures m.flags == old(m.flags) + if d in suspended then {(d, OfGroup)} else {}
    {
      hide CfgOk, BucketOk, NoDup, BackendOk, BandwidthOk;
      if d in suspended {
        SuspendMember(m, d, suspended + pending);
        share := 0;
      } else {
        share := bucket.limit.Get(d) / |members|;
        if share < minShare { share := minShare; }
      }
    }

    /** `bufferevent_add_to_rate_limit_group`, up to where the group lock is released; the thread keeps the lock of the
        bufferevent. */
    method JoinStart(m: Bufferevent)
      requires Valid() && m !in members && m.Valid() && m.joining == {} && forall d: Dir :: (d, OfGroup) !in m.flags
      modifies this`members, m`joining
      ensures Valid() && members == old(members) + [m] && m.joining == suspended
    {
      hide CfgOk, BucketOk, BackendOk, BandwidthOk;
      members := members + [m];
      m.joining := suspended;
    }

    /** The rest of it.  The group may have been unsuspended since. */
    method JoinEnd(m: Bufferevent)
      requires Valid() && m in members
      modifies m`on, m`flags, m`joining
      ensures Valid() && m.joining == {} && Suspended(old(m.flags), m.flags, old(m.joining))
    {
      hide CfgOk, BucketOk, BackendOk, BandwidthOk, NoDup;
      EndJoin(m, suspended + pending);
    }

    /** `bufferevent_remove_from_rate_limit_group`. */
    method Leave(k: nat)
      requires Valid() && k < |members| && members[k].joining == {}
      modifies this`members, {members[k]}`on, {members[k]}`flags
      ensures Valid() && members == old(members[..k] + members[k + 1..])
      ensures var m := old(members[k]);
              m.Valid() && Outsider(m) && Freed(old(members[k].flags), m.flags, {Dir.Read, Dir.Write})
    {
      hide CfgOk, BucketOk, BackendOk;
      var m := members[k];
      members := members[..k] + members[k + 1..];
      m.Unsuspend(Dir.Read, OfGroup);
      m.Unsuspend(Dir.Write, OfGroup);
      forall d: Dir ensures (d, OfGroup) !in m.flags {
        match d case Read => case Write =>
      }
    }

    /** No member is stranded: a direction that is enabled, but does not run, waits for something other than
        bandwidth, or a timer of its own is pending, or the group, whose timer is always pending, still has it to
        unsuspend. */
    lemma NotStranded(m: Bufferevent, d: Dir)
      requires Valid() && m in members && d in m.enabled && d !in m.on
      ensures (d, Else) in m.flags || (m.cfg.Some? && (m.armed || m.firing)) || d in suspended || d in pending
    {
      assert MemberOk(m, suspended + pending);
      assert (d, OfGroup) in m.flags ==> Waits(m, d);
    }

    /** No direction is deeper in debt than a share can bring it. */
    ghost predicate Floor()
      reads this
    {
      forall d: Dir :: bucket.limit.Get(d) >= 1 - minShare
    }

    /** A member asks for its share and uses at most that. */
    method UseShare(m: Bufferevent, d: Dir, bytes: nat, held: set<Bufferevent>, first: nat) returns (share: int)
      requires Valid() && m in members && first <= |members| && Locks(held)
      modifies this`bucket, this`suspended, this`pending, members`on, members`flags
      ensures Valid() && (minShare >= 1 && old(Floor()) ==> Floor())
      ensures share == (if d in old(suspended) then 0 else ShareOf(old(bucket).limit.Get(d), |members|, minShare))
      ensures if 0 < bytes <= share then
                && bucket == Spend(old(bucket), d, bytes)
                && Drawn(bucket, d, AnyHeld(members, held), old(suspended), old(pending), suspended, pending)
                && forall i :: 0 <= i < |members| ==>
                     members[i].flags == Redone(old(members[i].flags), bucket, d, d in old(suspended),
                       members[i] in held)
              else
                && bucket == old(bucket) && suspended == old(suspended) && pending == old(pending)
                && (forall c :: c in members && c != m ==> unchanged(c))
                && m.flags == old(m.flags) + if d in suspended then {(d, OfGroup)} else {}
    {
      hide MemberOk, NoDup, AnyHeld, Drawn, Redone;
      share := Share(m, d);
      if bytes <= share && bytes > 0 {
        assert m.flags == old(m.flags);
        assert forall i :: 0 <= i < |members| ==> members[i].flags == old(members[i].flags);
        ShareFloor(bucket.limit.Get(d), |members|, minShare, bytes);
        SpendOne(bucket, d, bytes);
        Decrement(d, bytes, held, first);
      }
    }

    /** A suspended group is unsuspended within two ticks, when each refill sees at least one pass. */
    method RefillTwice(tick1: nat, tick2: nat, held1: set<Bufferevent>, held2: set<Bufferevent>, first1: nat,
                       first2: nat)
      requires Valid() && Floor() && minShare >= 1 && tick1 < TWO_32 && tick2 < TWO_32
      requires first1 <= |members| && first2 <= |members| && Locks(held1) && Locks(held2)
      requires 0 < Ticks(bucket.lastUpdated, tick1) <= INT_MAX && 0 < Ticks(tick1, tick2) <= INT_MAX
      modifies this`bucket, this`suspended, this`pending, members`on, members`flags
      ensures Valid() && Floor() && suspended == {}
      ensures bucket == Update(Update(old(bucket), cfg, tick1), cfg, tick2)
    {
      hide Update, BucketOk, MemberOk, NoDup, Ticks;
      UpdateExact(bucket, cfg, tick1);
      UpdateExact(Update(bucket, cfg, tick1), cfg, tick2);
      forall d: Dir ensures Update(Update(bucket, cfg, tick1), cfg, tick2).limit.Get(d) >= minShare {
        TwoTicks(bucket.limit.Get(d), cfg.rate.Get(d), cfg.maximum.Get(d), minShare,
                 Ticks(bucket.lastUpdated, tick1), Ticks(tick1, tick2));
      }
      Refill(tick1, held1, first1);
      Refill(tick2, held2, first2);
    }

    /** The members that other threads have locked: some, and those that are being added. */
    method HeldBy(busy: set<nat>) returns (held: set<Bufferevent>)
      ensures Locks(held)
      ensures held == set k | 0 <= k < |members| && (k in busy || members[k].joining != {}) :: members[k]
    {
      held := set k | 0 <= k < |members| && (k in busy || members[k].joining != {}) :: members[k];
    }
  }

  /** Not in the group, and not suspended for it. */
  ghost predicate Outsider(m: Bufferevent)
    reads m
  {
    m.joining == {} && forall d: Dir :: (d, OfGroup) !in m.flags
  }

  /** What a bufferevent does by itself; nothing of it is about the group. */
  method PerformOwn(m: Bufferevent, own: Own)
    requires m.Valid()
    modifies m
    ensures m.Valid() && OwnDid(own, old(m.Now()), m.Now())
  {
    hide CfgOk, BucketOk, BackendOk, BandwidthOk, Update, Stopped, Spend, Metered, BandwidthOnly;
    match own {
      case OwnEnable(d) => m.Enable(d);
      case OwnDisable(d) => m.Disable(d);
      case OwnSuspend(d) => SuspendElse(m, d);
      case OwnUnsuspend(d) => UnsuspendElse(m, d);
      case OwnTimer => if m.armed { m.TimerFires(); }
      case OwnRefill(tick) => if m.firing && tick < TWO_32 { m.Refill(tick); }
      case OwnLimit(d, tick) => if tick < TWO_32 { var limit := m.OwnLimit(d, tick); }
      case OwnDecrement(d, bytes) => if -TWO_63 <= m.bucket.limit.Get(d) - bytes { m.Decrement(d, bytes); }
      case OwnSet(cfg, same, tick) =>
        if tick < TWO_32 && (cfg.Some? ==> CfgFine(cfg.value)) && (same ==> cfg.Some? && m.cfg == cfg) {
          m.SetRateLimit(cfg, same, tick);
        }
    }
  }

  /** A direction is suspended for a reason other than bandwidth. */
  method SuspendElse(m: Bufferevent, d: Dir)
    requires m.Valid()
    modifies m`on, m`flags
    ensures m.Valid() && m.flags == old(m.flags) + {(d, Else)}
  {
    m.Suspend(d, Else);
  }

  method UnsuspendElse(m: Bufferevent, d: Dir)
    requires m.Valid()
    modifies m`on, m`flags
    ensures m.Valid() && m.flags == old(m.flags) - {(d, Else)}
  {
    m.Unsuspend(d, Else);
  }

  datatype Own =
    | OwnEnable(d: Dir)
    | OwnDisable(d: Dir)
    | OwnSuspend(d: Dir)
    | OwnUnsuspend(d: Dir)
    | OwnTimer
    | OwnRefill(tick: nat)
    | OwnLimit(d: Dir, tick: nat)
    | OwnDecrement(d: Dir, bytes: nat)
    | OwnSet(cfg: Option<Cfg>, same: bool, tick: nat)

  /** The check in `ev_token_bucket_cfg_new`. */
  predicate CfgFine(cfg: Cfg)
    ensures CfgFine(cfg) <==> CfgOk(cfg)
  {
    assert CfgOk(cfg) ==> 1 <= cfg.rate.Get(Dir.Read) <= cfg.maximum.Get(Dir.Read) < TWO_63
                          && 1 <= cfg.rate.Get(Dir.Write) <= cfg.maximum.Get(Dir.Write) < TWO_63;
    && 1 <= cfg.rate.read <= cfg.maximum.read < TWO_63
    && 1 <= cfg.rate.write <= cfg.maximum.write < TWO_63
  }

  // ------------------------------------------------------------ what each step does

  ghost predicate OwnDid(own: Own, b: Bev, b': Bev) {
    match own
    case OwnEnable(d) => b' == b.(enabled := b.enabled + {d}, on := b'.on)
    case OwnDisable(d) => b' == b.(enabled := b.enabled - {d}, on := b'.on)
    case OwnSuspend(d) => b' == b.(flags := b.flags + {(d, Else)}, on := b'.on)
    case OwnUnsuspend(d) => b' == b.(flags := b.flags - {(d, Else)}, on := b'.on)
    case OwnTimer => b' == if b.armed then b.(armed := false, firing := true) else b
    case OwnRefill(tick) => if b.firing && tick < TWO_32 then RefillDid(b, b', tick) else b' == b
    case OwnLimit(d, tick) =>
      b' == if tick < TWO_32 && b.cfg.Some? then b.(bucket := Update(b.bucket, b.cfg.value, tick)) else b
    case OwnDecrement(d, bytes) =>
      if -TWO_63 <= b.bucket.limit.Get(d) - bytes then DecrementDid(b, b', d, bytes) else b' == b
    case OwnSet(cfg, same, tick) =>
      if tick < TWO_32 && (cfg.Some? ==> CfgFine(cfg.value)) && (same ==> cfg.Some? && b.cfg == cfg) then
        SetDid(b, b', cfg, same, tick)
      else b' == b
  }

  ghost predicate RefillDid(b: Bev, b': Bev, tick: nat) {
    && b' == b.(flags := b'.flags, on := b'.on, bucket := b'.bucket, armed := b'.armed, firing := false)
    && BandwidthOnly(b.flags, b'.flags)
    && if b.cfg.None? then b'.bucket == b.bucket && b'.flags == b.flags && b'.armed == b.armed
       else b'.bucket == Update(b.bucket, b.cfg.value, tick) && Metered(b'.flags, b'.bucket)
            && b'.armed == (b.armed || AnyMetered(b'.flags))
  }

  ghost predicate DecrementDid(b: Bev, b': Bev, d: Dir, bytes: nat) {
    && b' == b.(flags := b'.flags, on := b'.on, bucket := b'.bucket, armed := b'.armed)
    && BandwidthOnly(b.flags, b'.flags)
    && if b.cfg.None? then b'.bucket == b.bucket && b'.flags == b.flags && b'.armed == b.armed
       else b'.bucket == Spend(b.bucket, d, bytes) && ((d, Bandwidth) in b'.flags <==> b'.bucket.limit.Get(d) <= 0)
            && ((Opposite(d), Bandwidth) in b'.flags <==> (Opposite(d), Bandwidth) in b.flags)
            && b'.armed == if b'.bucket.limit.Get(d) <= 0 then true
                           else b.armed && !((d, Bandwidth) in b.flags && !AnyMetered(b'.flags))
  }

  ghost predicate SetDid(b: Bev, b': Bev, cfg: Option<Cfg>, same: bool, tick: nat) {
    && b' == b.(cfg := cfg, flags := b'.flags, on := b'.on, bucket := b'.bucket, armed := b'.armed)
    && BandwidthOnly(b.flags, b'.flags)
    && if same then b'.bucket == b.bucket && b'.flags == b.flags && b'.armed == b.armed
       else if cfg.None? then b'.bucket == b.bucket && !b'.armed
       else Metered(b'.flags, b'.bucket)
            && b'.bucket == (if b.cfg.None? then Bucket(cfg.value.rate, tick) else Clipped(b.bucket, cfg.value))
            && b'.armed == (AnyMetered(b'.flags) || (b.armed && b.cfg.None?))
  }

  lemma ShareIsSome(cfg: Cfg, share: nat)
    requires CfgOk(cfg)
    ensures share >= 1 ==> Min(share, Min(cfg.rate.read, cfg.rate.write)) >= 1
  {
    assert 1 <= cfg.rate.Get(Dir.Read) && 1 <= cfg.rate.Get(Dir.Write);
  }

  lemma ShareFloor(limit: int, n: nat, minShare: nat, bytes: nat)
    requires limit >= Min(1, minShare) && n >= 1 && bytes <= Max(limit / n, minShare)
    ensures limit - bytes >= Min(0, 1 - minShare)
  {
    assert limit / n <= limit;
  }

  lemma TwoTicks(limit: int, rate: int, maximum: int, minShare: int, n1: int, n2: int)
    requires limit >= 1 - minShare && 1 <= minShare <= rate <= maximum && n1 >= 1 && n2 >= 1
    ensures Min(Min(limit + n1 * rate, maximum) + n2 * rate, maximum) >= minShare
  {
    assert n1 * rate >= rate && n2 * rate >= rate;
  }

  lemma SpendOne(b: Bucket, d: Dir, bytes: nat)
    ensures forall x: Dir :: Spend(b, d, bytes).limit.Get(x) == b.limit.Get(x) - (if x == d then bytes else 0)
  {
    forall x: Dir ensures Spend(b, d, bytes).limit.Get(x) == b.limit.Get(x) - (if x == d then bytes else 0) {
      match x case Read => case Write =>
    }
  }

  /** What is known may grow. */
  lemma ForgetAll(ms: seq<Bufferevent>, known: set<Dir>, more: set<Dir>)
    requires known <= more && forall i :: 0 <= i < |ms| ==> MemberOk(ms[i], known)
    ensures forall i :: 0 <= i < |ms| ==> MemberOk(ms[i], more)
  {
  }

  method SuspendMember(m: Bufferevent, d: Dir, ghost known: set<Dir>)
    requires MemberOk(m, known) && d in known
    modifies m`on, m`flags
    ensures MemberOk(m, known) && m.flags == old(m.flags) + {(d, OfGroup)}
  {
    m.Suspend(d, OfGroup);
  }

  method EndJoin(m: Bufferevent, ghost known: set<Dir>)
    requires MemberOk(m, known)
    modifies m`on, m`flags, m`joining
    ensures MemberOk(m, known) && m.joining == {} && Suspended(old(m.flags), m.flags, old(m.joining))
  {
    hide BackendOk, BandwidthOk;
    assert forall d: Dir :: d in m.joining ==> Waits(m, d);
    var r, w := Dir.Read in m.joining, Dir.Write in m.joining;
    if r { SuspendMember(m, Dir.Read, known); }
    if w { SuspendMember(m, Dir.Write, known); }
    forall d: Dir ensures (d, OfGroup) in m.flags <==> (d, OfGroup) in old(m.flags) || d in m.joining {
      match d case Read => case Write =>
    }
    m.joining := {};
  }

  method UnsuspendMember(m: Bufferevent, d: Dir, ghost known: set<Dir>)
    requires MemberOk(m, known) && d !in m.joining
    modifies m`on, m`flags
    ensures MemberOk(m, known - {d}) && MemberOk(m, known) && m.flags == old(m.flags) - {(d, OfGroup)}
  {
    m.Unsuspend(d, OfGroup);
  }

  function Opposite(d: Dir): Dir {
    match d case Read => Dir.Write case Write => Dir.Read
  }

  function Clipped(b: Bucket, cfg: Cfg): Bucket {
    b.(limit := Pair(Min(b.limit.read, cfg.maximum.read), Min(b.limit.write, cfg.maximum.write)))
  }

  /** `ev_token_bucket_init`: a bucket that is in use is only clipped. */
  function Reset(b: Bucket, cfg: Cfg, tick: nat, reinit: bool): (r: Bucket)
    requires CfgOk(cfg) && tick < TWO_32
    requires reinit ==> b.lastUpdated < TWO_32 && forall d: Dir :: -TWO_63 <= b.limit.Get(d)
    ensures BucketOk(r, cfg)
    ensures !reinit ==> r.lastUpdated == tick && forall d: Dir :: r.limit.Get(d) == cfg.rate.Get(d)
    ensures reinit ==>
              r.lastUpdated == b.lastUpdated
              && forall d: Dir :: r.limit.Get(d) == if b.limit.Get(d) <= cfg.maximum.Get(d) then b.limit.Get(d)
                                                    else cfg.maximum.Get(d)
  {
    assert 1 <= cfg.rate.Get(Dir.Read) <= cfg.maximum.Get(Dir.Read)
           && 1 <= cfg.rate.Get(Dir.Write) <= cfg.maximum.Get(Dir.Write);
    assert reinit ==> -TWO_63 <= b.limit.Get(Dir.Read) && -TWO_63 <= b.limit.Get(Dir.Write);
    if reinit then Clipped(b, cfg) else Bucket(cfg.rate, tick)
  }

  lemma UpdateRaises(b: Bucket, cfg: Cfg, tick: nat)
    requires CfgOk(cfg) && BucketOk(b, cfg) && tick < TWO_32
    ensures forall d: Dir :: b.limit.Get(d) <= Update(b, cfg, tick).limit.Get(d)
  {
    UpdateExact(b, cfg, tick);
    hide Update;
    var n := Ticks(b.lastUpdated, tick);
    forall d: Dir ensures b.limit.Get(d) <= Update(b, cfg, tick).limit.Get(d) {
      assert 1 <= cfg.rate.Get(d) && b.limit.Get(d) <= cfg.maximum.Get(d);
      if 0 < n <= INT_MAX { assert n * cfg.rate.Get(d) > 0; }
    }
  }
}
