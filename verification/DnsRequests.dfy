/**
 The requests of an evdns base (libevent/evdns.c): those in flight hang in a table of lists by transaction id, the
 others wait in one list.
 */
module DnsRequests {
  import opened Common
  import opened Lists

  type Id = nat

  /** Transaction ids below this are used. */
  const ID_NONE: nat := 0xffff
  /** The largest value of the option `max-inflight`. */
  const MAX_INFLIGHT: nat := 65000

  /** `struct request`; it has a nameserver exactly when it is in flight. */
  datatype Request = Request(transId: nat, ns: Option<nat>)

  /** `struct nameserver`. */
  datatype Server = Server(name: nat, up: bool)

  type Live = map<Id, Request>

  // ------------------------------------------------------------ the lists against the requests

  predicate InBucket(r: Request, n: nat, b: nat)
    requires n > 0
  {
    r.ns.Some? && r.transId % n == b
  }

  /** The list holds exactly the requests in flight whose id belongs there. */
  ghost predicate BucketOk(req: Live, n: nat, b: nat, s: seq<Id>)
    requires n > 0
  {
    NoDup(s) && forall x :: x in s <==> x in req && InBucket(req[x], n, b)
  }

  ghost predicate HeadsOk(req: Live, heads: seq<seq<Id>>) {
    |heads| > 0 && forall b :: 0 <= b < |heads| ==> BucketOk(req, |heads|, b, heads[b])
  }

  ghost predicate WaitingOk(req: Live, waiting: seq<Id>) {
    NoDup(waiting) && forall x :: x in waiting <==> x in req && req[x].ns.None?
  }

  ghost predicate DistinctIds(req: Live) {
    forall x, y :: x in req && y in req && x != y && req[x].ns.Some? && req[y].ns.Some? ==>
      req[x].transId != req[y].transId
  }

  ghost function Inflight(req: Live): set<Id> {
    set x | x in req && req[x].ns.Some?
  }

  /** No request in flight has this id. */
  ghost predicate FreeId(req: Live, transId: nat) {
    forall x :: x in req && req[x].ns.Some? ==> req[x].transId != transId
  }

  // ------------------------------------------------------------ one list changes

  /** A request goes into flight. */
  lemma HeadsInsert(req: Live, heads: seq<seq<Id>>, x: Id, r: Request)
    requires HeadsOk(req, heads) && r.ns.Some? && (x in req ==> req[x].ns.None?)
    ensures var b := r.transId % |heads|; HeadsOk(req[x := r], heads[b := heads[b] + [x]])
  {
  }

  /** A request that is in flight goes. */
  lemma HeadsRemove(req: Live, heads: seq<seq<Id>>, x: Id)
    requires HeadsOk(req, heads) && x in req && req[x].ns.Some?
    ensures var b := req[x].transId % |heads|; x in heads[b] && HeadsOk(req - {x}, heads[b := Remove(heads[b], x)])
  {
    var b := req[x].transId % |heads|;
    RemoveProps(heads[b], x);
    hide Remove;
  }

  /** A change of a request that is not in flight, before and after, is not seen in the table. */
  lemma HeadsWaiting(req: Live, heads: seq<seq<Id>>, x: Id, r: Request)
    requires HeadsOk(req, heads) && (x in req ==> req[x].ns.None?) && r.ns.None?
    ensures HeadsOk(req[x := r], heads) && HeadsOk(req - {x}, heads)
  {
  }

  lemma WaitingInsert(req: Live, waiting: seq<Id>, x: Id, r: Request)
    requires WaitingOk(req, waiting) && r.ns.None? && (x in req ==> req[x].ns.Some?)
    ensures WaitingOk(req[x := r], waiting + [x]) && WaitingOk(req[x := r], [x] + waiting)
  {
  }

  /** The request leaves the waiting list, for good or to be in flight. */
  lemma WaitingRemove(req: Live, waiting: seq<Id>, x: Id, r: Request)
    requires WaitingOk(req, waiting) && x in req && req[x].ns.None? && r.ns.Some?
    ensures x in waiting && WaitingOk(req - {x}, Remove(waiting, x)) && WaitingOk(req[x := r], Remove(waiting, x))
  {
    RemoveProps(waiting, x);
    hide Remove;
  }

  lemma WaitingInflight(req: Live, waiting: seq<Id>, x: Id, r: Request)
    requires WaitingOk(req, waiting) && (x in req ==> req[x].ns.Some?) && r.ns.Some?
    ensures WaitingOk(req[x := r], waiting) && WaitingOk(req - {x}, waiting)
  {
  }

  lemma InflightCard(req: Live, x: Id, r: Request)
    ensures Inflight(req[x := r]) == if r.ns.Some? then Inflight(req) + {x} else Inflight(req) - {x}
    ensures Inflight(req - {x}) == Inflight(req) - {x}
  {
  }

  // ------------------------------------------------------------ there is an id left

  lemma {:induction false} NumberLeft(used: set<nat>, n: nat)
    requires |used| < n
    ensures exists i :: 0 <= i < n && i !in used
    decreases n
  {
    if n - 1 in used {
      NumberLeft(used - {n - 1}, n - 1);
      var i :| 0 <= i < n - 1 && i !in used - {n - 1};
    }
  }

  lemma {:induction false} IdsCard(req: Live, xs: set<Id>)
    requires forall x :: x in xs ==> x in req
    ensures |set x | x in xs :: req[x].transId| <= |xs|
    decreases |xs|
  {
    if xs == {} {
      assert (set x | x in xs :: req[x].transId) == {};
    } else {
      var y :| y in xs;
      var rest := xs - {y};
      IdsCard(req, rest);
      assert (set x | x in xs :: req[x].transId) == (set x | x in rest :: req[x].transId) + {req[y].transId};
    }
  }

  lemma SomeIdFree(req: Live)
    requires |Inflight(req)| < ID_NONE
    ensures exists i: nat :: i < ID_NONE && FreeId(req, i)
  {
    var xs := Inflight(req);
    IdsCard(req, xs);
    var used := set x | x in xs :: req[x].transId;
    NumberLeft(used, ID_NONE);
    var i :| 0 <= i < ID_NONE && i !in used;
    forall x | x in req && req[x].ns.Some? ensures req[x].transId != i {
      assert x in xs;
    }
    assert FreeId(req, i);
  }

  // ------------------------------------------------------------ moving whole lists

  /** While the table is rebuilt, a request in flight is in exactly one of the two. */
  ghost predicate Moving(req: Live, from: seq<seq<Id>>, to: seq<seq<Id>>) {
    && |from| > 0 && |to| > 0
    && (forall b :: 0 <= b < |from| ==>
          NoDup(from[b]) && forall x :: x in from[b] ==> x in req && InBucket(req[x], |from|, b))
    && (forall b :: 0 <= b < |to| ==> NoDup(to[b]) && forall x :: x in to[b] <==>
          x in req && InBucket(req[x], |to|, b) && x !in from[req[x].transId % |from|])
  }

  lemma MoveOne(req: Live, from: seq<seq<Id>>, to: seq<seq<Id>>, i: nat)
    requires Moving(req, from, to) && i < |from| && from[i] != []
    ensures from[i][0] in req
    ensures var x := from[i][0];
            var b := req[x].transId % |to|;
            Moving(req, from[i := from[i][1..]], to[b := to[b] + [x]])
  {
    var x := from[i][0];
    assert x in from[i];
    var b := req[x].transId % |to|;
    assert from[i] == [x] + from[i][1..];
    assert x !in to[b] && x !in from[i][1..];
  }

  lemma MovedAll(req: Live, from: seq<seq<Id>>, to: seq<seq<Id>>)
    requires Moving(req, from, to) && forall b :: 0 <= b < |from| ==> from[b] == []
    ensures HeadsOk(req, to)
  {
  }

  lemma MoveStart(req: Live, from: seq<seq<Id>>, n: nat)
    requires HeadsOk(req, from) && n > 0
    ensures Moving(req, from, NoLists(n))
  {
  }

  lemma {:induction false} SumLenNone(n: nat)
    ensures SumLen(NoLists(n)) == 0
  {
    SumLenZero(NoLists(n));
  }

  // ------------------------------------------------------------ what the calls do

  /** A request is sent off when there is room and a nameserver; otherwise it goes to the end of those that wait. */
  ghost predicate SubmitDid(s: State, s': State, x: Id) {
    var issuing := s.inflight < s.maxInflight;
    var (ns, rest) := if issuing then PickOf(s.servers) else (None, s.servers);
    && |s.heads| > 0 && x in s'.req && s'.req == s.req[x := s'.req[x]] && s'.req[x].ns == ns
    && (if issuing then s'.req[x].transId < ID_NONE && FreeId(s.req, s'.req[x].transId)
        else s'.req[x].transId == ID_NONE)
    && s'.servers == rest && s'.maxInflight == s.maxInflight
    && if ns.Some? then
         s'.waiting == s.waiting && s'.heads == Hang(s.heads, [x], s'.req) && s'.inflight == s.inflight + 1
       else s'.waiting == s.waiting + [x] && s'.heads == s.heads && s'.inflight == s.inflight
  }

  /** The ring after `k` picks. */
  function Rolled(servers: seq<Server>, k: nat): (r: seq<Server>)
    ensures |r| == |servers|
  {
    if k == 0 then servers else PickOf(Rolled(servers, k - 1)).1
  }

  /** The first `k` requests that waited have their nameservers, and no other request has changed. */
  ghost predicate Assigned(s: State, req: Live, k: nat)
    requires k <= |s.waiting|
  {
    && req.Keys == s.req.Keys && (forall y :: y in s.req && y !in s.waiting[..k] ==> req[y] == s.req[y])
    && forall i :: 0 <= i < k ==> s.waiting[i] in req && req[s.waiting[i]].ns == PickOf(Rolled(s.servers, i)).0
  }

  /** The first `k` requests that waited have been sent off, each to the nameserver whose turn it was. */
  ghost predicate Sent(s: State, s': State, k: nat) {
    && |s.heads| > 0 && k <= |s.waiting| && s'.waiting == s.waiting[k..] && s'.servers == Rolled(s.servers, k)
    && s'.inflight == s.inflight + k && s'.maxInflight == s.maxInflight && Assigned(s, s'.req, k)
    && s'.heads == Hang(s.heads, s.waiting[..k], s'.req)
  }

  /** As many as wait, and as there is room for. */
  function Due(s: State): nat {
    if s.servers == [] || s.inflight >= s.maxInflight then 0 else Min(|s.waiting|, s.maxInflight - s.inflight)
  }

  ghost predicate PumpDid(s: State, s': State) {
    Sent(s, s', Due(s))
  }

  /** Nothing more can be sent off. */
  predicate Pumped(s: State) {
    s.waiting == [] || s.inflight >= s.maxInflight || s.servers == []
  }

  /** The request is out of its list. */
  function Unlisted(s: State, x: Id): State
    requires x in s.req && |s.heads| > 0
  {
    if s.req[x].ns.Some? then
      var b := s.req[x].transId % |s.heads|;
      s.(req := s.req - {x}, heads := s.heads[b := Remove(s.heads[b], x)], inflight := s.inflight - 1)
    else s.(req := s.req - {x}, waiting := Remove(s.waiting, x))
  }

  /** The requests in flight are hashed anew, in the order of the table. */
  function Resized(s: State, max: int): State {
    var max' := if max < 1 then 1 else max;
    s.(maxInflight := max', heads := Hang(NoLists((max' + 4) / 5), Flat(s.heads), s.req))
  }

  /** All requests wait, those that were in flight first, in the reverse of their order in the table. */
  function Suspended(s: State): State {
    if s.servers == [] then s
    else s.(req := map y | y in s.req :: if s.req[y].ns.Some? then Request(0, None) else s.req[y],
            heads := NoLists(|s.heads|), waiting := Reversed(Flat(s.heads)) + s.waiting, inflight := 0, servers := [])
  }

  lemma SentNone(s: State)
    requires |s.heads| > 0
    ensures Sent(s, s, 0)
  {
  }

  lemma SentLeaves(s: State, s': State, k: nat)
    requires Sent(s, s', k)
    ensures s'.waiting == s.waiting[k..] && |s'.waiting| == |s.waiting| - k && |s'.servers| == |s.servers|
  {
  }

  /** Nobody was picked, as there is nobody. */
  lemma SentSame(s: State, s': State, s'': State, k: nat)
    requires Sent(s, s', k) && s'' == s'.(servers := []) && s'.servers == []
    ensures Sent(s, s'', k)
  {
  }

  lemma ListsKnown(req: Live, heads: seq<seq<Id>>, waiting: seq<Id>)
    requires HeadsOk(req, heads) && WaitingOk(req, waiting)
    ensures |heads| > 0 && NoDup(waiting)
  {
  }

  lemma SentMore(s: State, s': State, s'': State, k: nat)
    requires Sent(s, s', k) && s'.waiting != [] && NoDup(s.waiting) && s'.servers != [] && s'.waiting[0] in s'.req
    requires s''.waiting == s'.waiting[1..] && s''.inflight == s'.inflight + 1 && s''.maxInflight == s'.maxInflight
    requires s''.servers == PickOf(s'.servers).1 && s''.req.Keys == s'.req.Keys
    requires forall y :: y in s''.req && y != s'.waiting[0] ==> s''.req[y] == s'.req[y]
    requires s''.req[s'.waiting[0]].ns == PickOf(s'.servers).0
    requires s''.heads == Hang(s'.heads, [s'.waiting[0]], s''.req)
    ensures Sent(s, s'', k + 1)
  {
    hide PickOf, Hang, NoDup, Assigned;
    var x := s.waiting[k];
    assert s'.waiting[0] == x;
    OneMoreSent(s.waiting, k);
    AssignedKeys(s, s'.req, k);
    AssignedMore(s, s'.req, s''.req, k);
    HangMore(s.heads, s'.heads, s.waiting[..k], x, s'.req, s''.req);
  }

  lemma AssignedKeys(s: State, req: Live, k: nat)
    requires k <= |s.waiting| && Assigned(s, req, k)
    ensures req.Keys == s.req.Keys
  {
  }

  lemma AssignedMore(s: State, req: Live, req': Live, k: nat)
    requires k < |s.waiting| && Assigned(s, req, k) && NoDup(s.waiting) && s.waiting[k] in req
    requires req'.Keys == req.Keys && forall y :: y in req' && y != s.waiting[k] ==> req'[y] == req[y]
    requires req'[s.waiting[k]].ns == PickOf(Rolled(s.servers, k)).0
    ensures Assigned(s, req', k + 1)
  {
    hide PickOf, NoDup, Rolled;
    OneMoreSent(s.waiting, k);
    forall y | y in s.req && y !in s.waiting[..k + 1] ensures req'[y] == s.req[y] {
      assert y !in s.waiting[..k] && y != s.waiting[k];
    }
    forall i | 0 <= i < k + 1
      ensures s.waiting[i] in req' && req'[s.waiting[i]].ns == PickOf(Rolled(s.servers, i)).0
    {
      if i < k { assert s.waiting[i] in s.waiting[..k]; }
    }
  }

  lemma OneMoreSent(waiting: seq<Id>, k: nat)
    requires k < |waiting| && NoDup(waiting)
    ensures waiting[..k + 1] == waiting[..k] + [waiting[k]] && waiting[k] !in waiting[..k]
    ensures waiting[k..][1..] == waiting[k + 1..]
  {
  }

  lemma HangMore(heads: seq<seq<Id>>, now: seq<seq<Id>>, xs: seq<Id>, x: Id, req: Live, req': Live)
    requires |heads| > 0 && now == Hang(heads, xs, req) && x !in xs && x in req' && req'.Keys == req.Keys
    requires forall y :: y in req' && y != x ==> req'[y] == req[y]
    ensures Hang(now, [x], req') == Hang(heads, xs + [x], req')
  {
    HangAlike(heads, xs, req, req');
    HangOne(heads, xs, x, req');
    HangOne(now, [], x, req');
    assert [] + [x] == [x];
  }

  // ------------------------------------------------------------ the base

  /** Everything there is to a base at one moment. */
  datatype State = State(
    req: Live, heads: seq<seq<Id>>, waiting: seq<Id>, inflight: int, maxInflight: nat, servers: seq<Server>)

  /** The nameserver that `nameserver_pick` chooses, and the ring afterwards. */
  function PickOf(servers: seq<Server>): (r: (Option<nat>, seq<Server>))
    ensures r.0.None? <==> servers == []
    ensures |r.1| == |servers|
  {
    if servers == [] then (None, [])
    else if AllDown(servers) then (Some(Turned(servers, 1)[0].name), Turned(servers, 1))
    else (Some(servers[FirstUp(servers)].name), Turned(servers, FirstUp(servers) + 1))
  }

  /** The first nameserver from the head on that is up is picked, and the ring goes on behind it. */
  lemma PickFirst(servers: seq<Server>)
    ensures forall i :: 0 <= i < |servers| && servers[i].up && (forall j :: 0 <= j < i ==> !servers[j].up)
              ==> PickOf(servers) == (Some(servers[i].name), servers[i + 1..] + servers[..i + 1])
  {
    forall i | 0 <= i < |servers| && servers[i].up && (forall j :: 0 <= j < i ==> !servers[j].up)
      ensures PickOf(servers) == (Some(servers[i].name), servers[i + 1..] + servers[..i + 1])
    {
      assert FirstUp(servers) == i;
    }
  }

  function NoLists(n: nat): (r: seq<seq<Id>>)
    ensures |r| == n && forall b :: 0 <= b < n ==> r[b] == []
  {
    seq(n, _ => [])
  }

  /** Requests go, one after the other, to the end of the list of their id. */
  function Hang(heads: seq<seq<Id>>, xs: seq<Id>, req: Live): (r: seq<seq<Id>>)
    requires |heads| > 0
    ensures |r| == |heads|
    decreases |xs|
  {
    if xs == [] then heads
    else
      var h, x := Hang(heads, xs[..|xs| - 1], req), xs[|xs| - 1];
      if x !in req then h else var b := req[x].transId % |h|; h[b := h[b] + [x]]
  }

  lemma HangOne(heads: seq<seq<Id>>, xs: seq<Id>, x: Id, req: Live)
    requires |heads| > 0 && x in req
    ensures var h, b := Hang(heads, xs, req), req[x].transId % |heads|;
            Hang(heads, xs + [x], req) == h[b := h[b] + [x]]
  {
    assert (xs + [x])[..|xs|] == xs;
  }

  lemma HangSingle(heads: seq<seq<Id>>, x: Id, req: Live)
    requires |heads| > 0 && x in req
    ensures var b := req[x].transId % |heads|; Hang(heads, [x], req) == heads[b := heads[b] + [x]]
  {
    HangOne(heads, [], x, req);
    assert [] + [x] == [x];
  }

  /** Where requests hang depends on their own ids alone. */
  lemma {:induction false} HangAlike(heads: seq<seq<Id>>, xs: seq<Id>, req: Live, req': Live)
    requires |heads| > 0 && forall x :: x in xs ==> (x in req' <==> x in req) && (x in req ==> req'[x] == req[x])
    ensures Hang(heads, xs, req') == Hang(heads, xs, req)
    decreases |xs|
  {
    if xs != [] { HangAlike(heads, xs[..|xs| - 1], req, req'); }
  }

  /** `struct evdns_base`.  The nameservers are a ring, listed from `server_head` on. */
  class DnsBase {
    var req: Live
    var heads: seq<seq<Id>>
    var waiting: seq<Id>
    var requestsInflight: int
    var requestsWaiting: int
    var maxInflight: nat
    var servers: seq<Server>

    ghost predicate Valid()
      reads this
    {
      && HeadsOk(req, heads) && WaitingOk(req, waiting) && DistinctIds(req)
      && requestsInflight == SumLen(heads) == |Inflight(req)| && requestsWaiting == |waiting|
      && 1 <= maxInflight <= MAX_INFLIGHT && |heads| == (maxInflight + 4) / 5
    }

    ghost function Now(): State
      reads this
    {
      State(req, heads, waiting, requestsInflight, maxInflight, servers)
    }

    constructor ()
      ensures Valid() && Now() == State(map[], NoLists(13), [], 0, 64, [])
    {
      req, heads, waiting, servers := map[], NoLists(13), [], [];
      requestsInflight, requestsWaiting, maxInflight := 0, 0, 64;
      SumLenNone(13);
      assert Inflight(map[]) == {};
    }

    /** `request_find_from_trans_id`: looking in one list is looking at all requests in flight. */
    method Find(transId: nat) returns (r: Option<Id>)
      requires Valid()
      ensures match r
              case Some(x) => x in req && req[x].ns.Some? && req[x].transId == transId
              case None => FreeId(req, transId)
    {
      var s := heads[transId % |heads|];
      var i := 0;
      while i < |s|
        invariant i <= |s| && forall j :: 0 <= j < i ==> s[j] in req && req[s[j]].transId != transId
      {
        assert s[i] in s;
        if req[s[i]].transId == transId { return Some(s[i]); }
        i := i + 1;
      }
      r := None;
      forall x | x in req && req[x].ns.Some? ensures req[x].transId != transId {
        if req[x].transId % |heads| == transId % |heads| { assert x in s; }
      }
    }

    /** `transaction_id_pick`: an id that is not in flight.  Random draws are replaced by a scan; there is always such
        an id. */
    method PickId() returns (transId: nat)
      requires Valid() && requestsInflight < ID_NONE
      ensures transId < ID_NONE && FreeId(req, transId)
    {
      SomeIdFree(req);
      ghost var free: nat :| free < ID_NONE && FreeId(req, free);
      var k := 0;
      while true
        invariant k <= free
        decreases free - k
      {
        var r := Find(k);
        if r.None? { return k; }
        k := k + 1;
      }
    }

    /** `nameserver_pick`: none exactly when there is none; otherwise the first that is up, if any is, and the ring
        moves on to the one after it. */
    method PickServer() returns (ns: Option<nat>)
      modifies this`servers
      ensures ns.None? <==> old(servers) == []
      ensures (ns, servers) == PickOf(old(servers))
      ensures var all := old(servers);
              forall i :: 0 <= i < |all| && all[i].up && (forall j :: 0 <= j < i ==> !all[j].up)
                ==> ns == Some(all[i].name) && servers == all[i + 1..] + all[..i + 1]
    {
      PickFirst(servers);
      hide Turned;
      if servers == [] { return None; }
      ghost var all := servers;
      TurnStart(all);
      if AllDown(servers) {
        TurnOnce(all, 0);
        servers := servers[1..] + [servers[0]];
        return Some(servers[0].name);
      }
      ghost var k := 0;
      while !servers[0].up
        invariant 0 <= k <= FirstUp(all) && servers != [] && servers[0] == all[k] && servers == Turned(all, k)
        decreases FirstUp(all) - k
        modifies this`servers
      {
        TurnOnce(all, k);
        servers := servers[1..] + [servers[0]];
        k := k + 1;
        TurnOnce(all, k);
      }
      ns := Some(servers[0].name);
      TurnOnce(all, k);
      servers := servers[1..] + [servers[0]];
    }

    /** `request_new` and `request_submit`: into flight when there is room and a nameserver, otherwise to the end of
        the waiting list. */
    method Submit(x: Id)
      requires Valid() && x !in req
      modifies this
      ensures Valid() && SubmitDid(old(Now()), Now(), x)
    {
      hide HeadsOk, WaitingOk, DistinctIds, Inflight, SumLen, FreeId, PickOf;
      var issuing := requestsInflight < maxInflight;
      var transId := ID_NONE;
      var ns := None;
      if issuing {
        transId := PickId();
        ns := PickServer();
      }
      if ns.Some? {
        NotInflight(req, x);
        Launch(x, Request(transId, ns));
      } else {
        Enqueue(x, transId);
      }
    }

    /** A new request goes to the end of the waiting list. */
    method Enqueue(x: Id, transId: nat)
      requires Valid() && x !in req
      modifies this`req, this`waiting, this`requestsWaiting
      ensures Valid() && req == old(req)[x := Request(transId, None)] && waiting == old(waiting) + [x]
    {
      hide HeadsOk, WaitingOk, DistinctIds, Inflight, SumLen;
      var r := Request(transId, None);
      EnqueueRest(req, x, r);
      HeadsWaiting(req, heads, x, r);
      WaitingInsert(req, waiting, x, r);
      waiting := waiting + [x];
      requestsWaiting := requestsWaiting + 1;
      req := req[x := r];
    }

    /** A request that is in no list goes into flight. */
    method Launch(x: Id, r: Request)
      requires HeadsOk(req, heads) && WaitingOk(req - {x}, waiting) && DistinctIds(req - {x})
               && FreeId(req - {x}, r.transId)
      requires x in req ==> req[x].ns.None?
      requires requestsInflight == SumLen(heads) == |Inflight(req)| && requestsWaiting == |waiting|
      requires 1 <= maxInflight <= MAX_INFLIGHT && |heads| == (maxInflight + 4) / 5 && r.ns.Some?
      modifies this`req, this`heads, this`requestsInflight
      ensures Valid() && req == old(req)[x := r] && requestsInflight == old(requestsInflight) + 1
      ensures |old(heads)| > 0 && heads == Hang(old(heads), [x], req)
    {
      hide HeadsOk, WaitingOk, DistinctIds, Inflight, SumLen, FreeId, Hang;
      var b := Slot(r.transId, req, heads);
      HangSingle(heads, x, req[x := r]);
      HeadsInsert(req, heads, x, r);
      SumLenUpdate(heads, b, heads[b] + [x]);
      LaunchRest(req, waiting, x, r);
      heads := heads[b := heads[b] + [x]];
      requestsInflight := requestsInflight + 1;
      req := req[x := r];
    }

    /** The first request that waits is sent off. */
    method PumpOne(ns: nat)
      requires Valid() && waiting != [] && requestsInflight < maxInflight
      modifies this`req, this`heads, this`requestsInflight, this`waiting, this`requestsWaiting
      ensures Valid() && waiting == old(waiting)[1..] && requestsInflight == old(requestsInflight) + 1
      ensures req.Keys == old(req.Keys) && forall y :: y in req && y != old(waiting)[0] ==> req[y] == old(req)[y]
      ensures old(waiting)[0] in req && req[old(waiting)[0]].ns == Some(ns)
      ensures |old(heads)| > 0 && heads == Hang(old(heads), [old(waiting)[0]], req)
    {
      hide HeadsOk, WaitingOk, DistinctIds, Inflight, SumLen, FreeId;
      var x := waiting[0];
      FirstWaits(req, waiting);
      var transId := PickId();
      var r := Request(transId, Some(ns));
      WaitingRemove(req, waiting, x, r);
      PumpRest(req, x, transId);
      waiting := waiting[1..];
      requestsWaiting := requestsWaiting - 1;
      Launch(x, r);
    }

    /** `evdns_requests_pump_waiting_queue`: as many requests as there is room for are sent off, from the front, each to
        the nameserver whose turn it is. */
    method Pump()
      requires Valid()
      modifies this
      ensures Valid() && Pumped(Now()) && PumpDid(old(Now()), Now())
    {
      hide HeadsOk, WaitingOk, DistinctIds, Inflight, SumLen, FreeId, PickOf, Hang, Sent;
      ghost var s, k := Now(), 0;
      ListsKnown(s.req, s.heads, s.waiting);
      SentNone(s);
      while requestsInflight < maxInflight && requestsWaiting != 0
        invariant Valid() && maxInflight == s.maxInflight && requestsInflight == s.inflight + k
        invariant k <= |s.waiting| && (k > 0 ==> servers != [] && requestsInflight <= maxInflight)
        invariant Sent(s, Now(), k)
        decreases |waiting|
      {
        ghost var now := Now();
        SentLeaves(s, now, k);
        var ns := PickServer();
        if ns.None? {
          SentSame(s, now, Now(), k);
          return;
        }
        FirstWaits(req, waiting);
        PumpOne(ns.value);
        SentMore(s, now, Now(), k);
        k := k + 1;
      }
      SentLeaves(s, Now(), k);
    }

    /** `request_finished` and `evdns_cancel_request`: the request is gone from its list, and another may take its
        place. */
    method Finish(x: Id)
      requires Valid() && x in req
      modifies this
      ensures Valid() && Pumped(Now()) && |old(heads)| > 0 && PumpDid(Unlisted(old(Now()), x), Now())
    {
      hide HeadsOk, WaitingOk, DistinctIds, Inflight, SumLen, FreeId, PumpDid, Unlisted;
      Unlist(x);
      Pump();
    }

    method Unlist(x: Id)
      requires Valid() && x in req
      modifies this`req, this`heads, this`requestsInflight, this`waiting, this`requestsWaiting
      ensures Valid() && |old(heads)| > 0 && Now() == Unlisted(old(Now()), x)
    {
      hide HeadsOk, WaitingOk, DistinctIds, Inflight, SumLen, Remove;
      UnlistRest(req, x);
      if req[x].ns.Some? {
        var b := Slot(req[x].transId, req, heads);
        HeadsRemove(req, heads, x);
        Shorter(req, heads, b, x);
        SumLenUpdate(heads, b, Remove(heads[b], x));
        WaitingInflight(req, waiting, x, req[x]);
        heads := heads[b := Remove(heads[b], x)];
        requestsInflight := requestsInflight - 1;
      } else {
        WaitingRemove(req, waiting, x, req[x].(ns := Some(0)));
        ShorterWaiting(req, waiting, x);
        HeadsWaiting(req, heads, x, req[x]);
        waiting := Remove(waiting, x);
        requestsWaiting := requestsWaiting - 1;
      }
      req := req - {x};
    }

    /** `evdns_base_set_max_requests_inflight`: every list is taken apart and its requests hashed again. */
    method SetMaxInflight(max: int)
      requires Valid() && max <= MAX_INFLIGHT
      modifies this
      ensures Valid() && Now() == Resized(old(Now()), max)
      ensures maxInflight == (if max >= 1 then max else 1) && |heads| == (maxInflight + 4) / 5 && req == old(req)
    {
      hide HeadsOk, WaitingOk, DistinctIds, Inflight, SumLen, Moving, Hang, Flat;
      var max' := if max < 1 then 1 else max;
      var n := (max' + 4) / 5;
      var newHeads := Rehash(req, heads, n);
      heads := newHeads;
      maxInflight := max';
    }

    /** `evdns_base_clear_nameservers_and_suspend`: all requests in flight wait again, before those that waited. */
    method Suspend()
      requires Valid()
      modifies this
      ensures Valid() && Now() == Suspended(old(Now()))
    {
      hide HeadsOk, WaitingOk, DistinctIds, Inflight, SumLen, Flat, Reversed;
      if servers == [] { return; }
      servers := [];
      ghost var whole := Reversed(Flat(heads)) + waiting;
      var i := 0;
      while i < |heads|
        invariant i <= |heads| && Valid() && req.Keys == old(req.Keys) && Reversed(Flat(heads)) + waiting == whole
        invariant forall b :: 0 <= b < i ==> heads[b] == []
        invariant forall y :: y in req ==> req[y] == old(req)[y] || (old(req)[y].ns.Some? && req[y] == Request(0, None))
        invariant servers == [] && maxInflight == old(maxInflight) && |heads| == old(|heads|)
      {
        SuspendList(i);
        i := i + 1;
      }
      SumLenZero(heads);
      NobodyInflight(req);
      FlatNone(heads);
      assert [] + waiting == waiting;
      assert heads == NoLists(|heads|);
      assert req == Suspended(old(Now())).req;
    }

    /** One list, when those before it are empty. */
    method SuspendList(i: nat)
      requires Valid() && i < |heads| && forall b :: 0 <= b < i ==> heads[b] == []
      modifies this`req, this`heads, this`requestsInflight, this`waiting, this`requestsWaiting
      ensures Valid() && |heads| == old(|heads|) && forall b :: 0 <= b <= i ==> heads[b] == []
      ensures req.Keys == old(req.Keys)
      ensures forall y :: y in req ==> req[y] == old(req)[y] || (old(req)[y].ns.Some? && req[y] == Request(0, None))
      ensures Reversed(Flat(heads)) + waiting == old(Reversed(Flat(heads)) + waiting)
    {
      hide HeadsOk, WaitingOk, DistinctIds, Inflight, SumLen, Flat, Reversed;
      while heads[i] != []
        invariant Valid() && |heads| == old(|heads|) && forall b :: 0 <= b < i ==> heads[b] == []
        invariant req.Keys == old(req.Keys)
        invariant forall y :: y in req ==> req[y] == old(req)[y] || (old(req)[y].ns.Some? && req[y] == Request(0, None))
        invariant Reversed(Flat(heads)) + waiting == old(Reversed(Flat(heads)) + waiting)
        decreases |heads[i]|
      {
        FlatPop(heads, i);
        ghost var rest := Reversed(Flat(heads[i := heads[i][1..]]));
        ConcatAssoc(rest, [heads[i][0]], waiting);
        var x := SuspendOne(i);
      }
    }

    /** The first request of a list goes to the front of those that wait. */
    method SuspendOne(i: nat) returns (x: Id)
      requires Valid() && i < |heads| && heads[i] != []
      modifies this`req, this`heads, this`requestsInflight, this`waiting, this`requestsWaiting
      ensures Valid() && x == old(heads)[i][0] && heads == old(heads)[i := old(heads)[i][1..]]
              && waiting == [x] + old(waiting)
      ensures x in old(req) && old(req)[x].ns.Some? && req == old(req)[x := Request(0, None)]
    {
      hide HeadsOk, WaitingOk, DistinctIds, Inflight, SumLen;
      x := heads[i][0];
      BucketHead(req, heads, i);
      var r := Request(0, None);
      SuspendRest(req, x);
      HeadsRemove(req, heads, x);
      HeadsWaiting(req - {x}, heads[i := heads[i][1..]], x, r);
      assert (req - {x})[x := r] == req[x := r];
      WaitingInsert(req, waiting, x, r);
      SumLenUpdate(heads, i, heads[i][1..]);
      heads := heads[i := heads[i][1..]];
      requestsInflight := requestsInflight - 1;
      waiting := [x] + waiting;
      requestsWaiting := requestsWaiting + 1;
      req := req[x := r];
    }
  }

  /** The loop of `evdns_base_set_max_requests_inflight`. */
  method Rehash(req: Live, heads: seq<seq<Id>>, n: nat) returns (to: seq<seq<Id>>)
    requires HeadsOk(req, heads) && n > 0
    ensures HeadsOk(req, to) && |to| == n && SumLen(to) == SumLen(heads) && to == Hang(NoLists(n), Flat(heads), req)
  {
    hide HeadsOk, SumLen, Moving, Flat;
    var from := heads;
    to := NoLists(n);
    ghost var done: seq<Id> := [];
    assert done + Flat(from) == Flat(heads);
    MoveStart(req, heads, n);
    SumLenNone(n);
    var i := 0;
    while i < |from|
      invariant i <= |from| == |heads| && |to| == n && Moving(req, from, to)
                && SumLen(from) + SumLen(to) == SumLen(heads)
      invariant forall b :: 0 <= b < i ==> from[b] == []
      invariant to == Hang(NoLists(n), done, req) && done + Flat(from) == Flat(heads)
    {
      while from[i] != []
        invariant i < |from| == |heads| && |to| == n && Moving(req, from, to)
                  && SumLen(from) + SumLen(to) == SumLen(heads)
        invariant forall b :: 0 <= b < i ==> from[b] == []
        invariant to == Hang(NoLists(n), done, req) && done + Flat(from) == Flat(heads)
        decreases |from[i]|
      {
        var x := from[i][0];
        FlatFirst(from, i);
        ConcatAssoc(done, [x], Flat(from[i := from[i][1..]]));
        MoveOne(req, from, to, i);
        var b := req[x].transId % n;
        SumLenUpdate(from, i, from[i][1..]);
        SumLenUpdate(to, b, to[b] + [x]);
        HangOne(NoLists(n), done, x, req);
        from := from[i := from[i][1..]];
        to := to[b := to[b] + [x]];
        done := done + [x];
      }
      i := i + 1;
    }
    MovedAll(req, from, to);
    SumLenZero(from);
    FlatNone(from);
    assert done + [] == done;
  }

  lemma FirstWaits(req: Live, waiting: seq<Id>)
    requires WaitingOk(req, waiting)
    ensures waiting != [] ==>
              waiting[0] in req && req[waiting[0]].ns.None? && Remove(waiting, waiting[0]) == waiting[1..]
  {
    if waiting != [] { assert waiting[0] in waiting; }
  }

  lemma PumpRest(req: Live, x: Id, transId: nat)
    requires DistinctIds(req) && FreeId(req, transId)
    ensures DistinctIds(req - {x}) && FreeId(req - {x}, transId)
  {
  }

  lemma UnlistRest(req: Live, x: Id)
    requires DistinctIds(req) && x in req
    ensures DistinctIds(req - {x})
    ensures |Inflight(req - {x})| == |Inflight(req)| - if req[x].ns.Some? then 1 else 0
  {
    InflightCard(req, x, req[x]);
  }

  lemma Shorter(req: Live, heads: seq<seq<Id>>, b: nat, x: Id)
    requires HeadsOk(req, heads) && b < |heads| && x in heads[b]
    ensures |Remove(heads[b], x)| == |heads[b]| - 1
  {
    RemoveProps(heads[b], x);
  }

  lemma ShorterWaiting(req: Live, waiting: seq<Id>, x: Id)
    requires WaitingOk(req, waiting) && x in waiting
    ensures |Remove(waiting, x)| == |waiting| - 1
  {
    RemoveProps(waiting, x);
  }

  lemma BucketHead(req: Live, heads: seq<seq<Id>>, i: nat)
    requires HeadsOk(req, heads) && i < |heads| && heads[i] != []
    ensures var x := heads[i][0]; x in req && InBucket(req[x], |heads|, i) && Remove(heads[i], x) == heads[i][1..]
  {
    assert heads[i][0] in heads[i];
  }

  /** All lists, one after another. */
  function Flat(heads: seq<seq<Id>>): seq<Id> {
    if heads == [] then [] else heads[0] + Flat(heads[1..])
  }

  function Reversed(s: seq<Id>): seq<Id> {
    if s == [] then [] else Reversed(s[1..]) + [s[0]]
  }

  lemma {:induction false} FlatNone(heads: seq<seq<Id>>)
    requires forall b :: 0 <= b < |heads| ==> heads[b] == []
    ensures Flat(heads) == [] && Reversed(Flat(heads)) == []
  {
    if heads != [] { FlatNone(heads[1..]); }
  }

  /** The first request of the first list that has one is the first of all. */
  lemma {:induction false} FlatFirst(heads: seq<seq<Id>>, i: nat)
    requires i < |heads| && heads[i] != [] && forall b :: 0 <= b < i ==> heads[b] == []
    ensures Flat(heads) == [heads[i][0]] + Flat(heads[i := heads[i][1..]])
  {
    var heads' := heads[i := heads[i][1..]];
    if i == 0 {
      assert heads'[1..] == heads[1..];
    } else {
      FlatFirst(heads[1..], i - 1);
      assert heads'[1..] == heads[1..][i - 1 := heads[i][1..]];
    }
  }

  lemma FlatPop(heads: seq<seq<Id>>, i: nat)
    requires i < |heads| && heads[i] != [] && forall b :: 0 <= b < i ==> heads[b] == []
    ensures Reversed(Flat(heads)) == Reversed(Flat(heads[i := heads[i][1..]])) + [heads[i][0]]
  {
    FlatFirst(heads, i);
    assert Flat(heads)[1..] == Flat(heads[i := heads[i][1..]]);
  }

  lemma SuspendRest(req: Live, x: Id)
    requires DistinctIds(req) && x in req && req[x].ns.Some?
    ensures DistinctIds(req[x := Request(0, None)]) && |Inflight(req[x := Request(0, None)])| == |Inflight(req)| - 1
  {
    InflightCard(req, x, Request(0, None));
  }

  lemma NobodyInflight(req: Live)
    ensures |Inflight(req)| == 0 ==> forall y :: y in req ==> req[y].ns.None?
  {
    forall y | y in req && req[y].ns.Some? ensures |Inflight(req)| > 0 {
      assert y in Inflight(req);
    }
  }

  predicate AllDown(s: seq<Server>) {
    forall i :: 0 <= i < |s| ==> !s[i].up
  }

  /** The place of the first that is up. */
  function FirstUp(s: seq<Server>): (k: nat)
    requires !AllDown(s)
    ensures k < |s| && s[k].up && forall i :: 0 <= i < k ==> !s[i].up
  {
    if s[0].up then 0 else
      assert !AllDown(s[1..]) by {
        var i :| 0 <= i < |s| && s[i].up;
        assert s[1..][i - 1].up;
      }
      1 + FirstUp(s[1..])
  }

  /** The ring, seen from its `k`th member. */
  function Turned(s: seq<Server>, k: nat): (t: seq<Server>)
    requires k <= |s|
    ensures |t| == |s|
  {
    s[k..] + s[..k]
  }

  lemma TurnOnce(s: seq<Server>, k: nat)
    requires k < |s|
    ensures var t := Turned(s, k); t != [] && t[0] == s[k] && t[1..] + [t[0]] == Turned(s, k + 1)
  {
  }

  lemma TurnStart(s: seq<Server>)
    ensures Turned(s, 0) == s
  {
  }

  lemma NotInflight(req: Live, x: Id)
    requires x !in req
    ensures req - {x} == req
  {
  }

  lemma EnqueueRest(req: Live, x: Id, r: Request)
    requires DistinctIds(req) && x !in req && r.ns.None?
    ensures DistinctIds(req[x := r]) && Inflight(req[x := r]) == Inflight(req)
  {
  }

  function Slot(transId: nat, ghost req: Live, heads: seq<seq<Id>>): (b: nat)
    requires HeadsOk(req, heads)
    ensures b < |heads| && b == transId % |heads|
  {
    transId % |heads|
  }

  /** Everything but the table. */
  lemma LaunchRest(req: Live, waiting: seq<Id>, x: Id, r: Request)
    requires WaitingOk(req - {x}, waiting) && DistinctIds(req - {x}) && FreeId(req - {x}, r.transId) && r.ns.Some?
    requires x in req ==> req[x].ns.None?
    ensures WaitingOk(req[x := r], waiting) && DistinctIds(req[x := r])
            && |Inflight(req[x := r])| == |Inflight(req)| + 1
  {
    InflightCard(req, x, r);
    assert x !in Inflight(req);
  }
}
