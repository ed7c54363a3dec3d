/**
 Token buckets and bandwidth suspension of one bufferevent (libevent/bufferevent_ratelim.c, libevent/bufferevent.c).
 */
module RateLimit {
  import opened Common

  const TWO_32: int := 0x1_0000_0000
  const TWO_63: int := 0x8000_0000_0000_0000
  const TWO_64: int := 0x1_0000_0000_0000_0000
  const INT_MAX: int := 0x7fff_ffff

  datatype Dir = Read | Write

  /** A number for reading and one for writing. */
  datatype Pair = Pair(read: int, write: int) {
    function Get(d: Dir): int {
      match d case Read => read case Write => write
    }

    function With(d: Dir, x: int): Pair {
      match d case Read => Pair(x, write) case Write => Pair(read, x)
    }
  }

  /** `struct ev_token_bucket_cfg`. */
  datatype Cfg = Cfg(rate: Pair, maximum: Pair)

  /** What `ev_token_bucket_cfg_new` lets through. */
  predicate CfgOk(cfg: Cfg) {
    forall d: Dir :: 1 <= cfg.rate.Get(d) <= cfg.maximum.Get(d) < TWO_63
  }

  // ------------------------------------------------------------ the bucket

  /** The value of 64 bits read as a signed number. */
  function Signed(x: int): int {
    var m := x % TWO_64;
    if m < TWO_63 then m else m - TWO_64
  }

  /** One limit in `ev_token_bucket_update`, in 64-bit arithmetic: divide first, then multiply. */
  function Credit(limit: int, rate: int, maximum: int, n: int): int
    requires n > 0
  {
    if (maximum - limit) % TWO_64 / n < rate then maximum else Signed(limit + n * rate % TWO_64)
  }

  lemma DivLess(room: int, n: int, rate: int)
    requires n > 0
    ensures room / n < rate <==> room < n * rate
  {
    var q, r := room / n, room % n;
    assert room == n * q + r;
    if q < rate { AtLeast(n, rate, q + 1); } else { AtLeast(n, q, rate); }
  }

  lemma AtLeast(n: int, a: int, b: int)
    requires n > 0 && a >= b
    ensures n * a >= n * b && n * (b - 1) == n * b - n && n * (b + 1) == n * b + n
  {
    assert n * a - n * b == n * (a - b);
  }

  /** The same, with the product taken. */
  lemma SumExact(limit: int, maximum: int, add: int)
    requires -TWO_63 <= limit < TWO_63 && 0 < maximum < TWO_63 && 0 < add
    ensures var room := (maximum - limit) % TWO_64;
            (if room < add then maximum else Signed(limit + add % TWO_64)) == Min(limit + add, maximum)
            <==> limit <= maximum || add >= TWO_64 + maximum - limit
  {
    var room := (maximum - limit) % TWO_64;
    assert room == if limit <= maximum then maximum - limit else TWO_64 + maximum - limit;
    if add <= room {
      SignedSum(limit + add);
    }
  }

  /** Dividing first gives the capped sum for every limit that is not above the maximum; above it, only when
      the number of ticks makes up for the wrap-around. */
  lemma CreditExact(limit: int, rate: int, maximum: int, n: int)
    requires -TWO_63 <= limit < TWO_63 && 1 <= rate <= maximum < TWO_63 && 0 < n <= INT_MAX
    ensures Credit(limit, rate, maximum, n) == Min(limit + n * rate, maximum)
            <==> limit <= maximum || n * rate >= TWO_64 + maximum - limit
  {
    DivLess((maximum - limit) % TWO_64, n, rate);
    assert 0 < n * rate;
    hide Signed;
    SumExact(limit, maximum, n * rate);
  }

  /** Above the maximum the limit grows further: 5 in a bucket of 3, at 1 a tick, becomes 6. */
  lemma CreditAbove()
    ensures Credit(5, 1, 3, 1) == 6 && Min(5 + 1, 3) == 3
  {
    assert (3 - 5) % TWO_64 == TWO_64 - 2;
    assert 6 % TWO_64 == 6;
  }

  lemma SignedSum(x: int)
    ensures -TWO_63 <= x < TWO_63 ==> Signed(x) == x
    ensures TWO_63 <= x < TWO_63 + TWO_64 ==> Signed(x) == x - TWO_64
  {
  }

  /** `struct ev_token_bucket`. */
  datatype Bucket = Bucket(limit: Pair, lastUpdated: nat)

  /** A bucket in range. */
  predicate BucketOk(b: Bucket, cfg: Cfg) {
    b.lastUpdated < TWO_32 && forall d: Dir :: -TWO_63 <= b.limit.Get(d) <= cfg.maximum.Get(d)
  }

  /** The number of ticks that have passed, in 32-bit arithmetic. */
  function Ticks(last: nat, now: nat): int {
    (now - last) % TWO_32
  }

  /** `ev_token_bucket_update`. */
  function Update(b: Bucket, cfg: Cfg, tick: nat): Bucket {
    var n := Ticks(b.lastUpdated, tick);
    if n == 0 || n > INT_MAX then b
    else Bucket(Pair(Credit(b.limit.read, cfg.rate.read, cfg.maximum.read, n),
                     Credit(b.limit.write, cfg.rate.write, cfg.maximum.write, n)), tick)
  }

  /** An update adds the ticks that have passed since the last, up to the maximum, and none when the clock went
      back. */
  lemma UpdateExact(b: Bucket, cfg: Cfg, tick: nat)
    requires CfgOk(cfg) && BucketOk(b, cfg) && tick < TWO_32
    ensures BucketOk(Update(b, cfg, tick), cfg)
    ensures var n := Ticks(b.lastUpdated, tick);
            if 0 < n <= INT_MAX
            then Update(b, cfg, tick).lastUpdated == tick && forall d: Dir ::
                   Update(b, cfg, tick).limit.Get(d) == Min(b.limit.Get(d) + n * cfg.rate.Get(d), cfg.maximum.Get(d))
            else Update(b, cfg, tick) == b
  {
    var n := Ticks(b.lastUpdated, tick);
    assert cfg.rate.Get(Read) == cfg.rate.read && cfg.rate.Get(Write) == cfg.rate.write;
    assert b.limit.Get(Read) <= cfg.maximum.Get(Read) && b.limit.Get(Write) <= cfg.maximum.Get(Write);
    if 0 < n <= INT_MAX {
      CreditExact(b.limit.read, cfg.rate.read, cfg.maximum.read, n);
      CreditExact(b.limit.write, cfg.rate.write, cfg.maximum.write, n);
      assert n * cfg.rate.read > 0 && n * cfg.rate.write > 0;
      hide Credit;
      forall d: Dir ensures Update(b, cfg, tick).limit.Get(d) ==
          Min(b.limit.Get(d) + n * cfg.rate.Get(d), cfg.maximum.Get(d)) {
      }
    }
  }

  // ------------------------------------------------------------ a bound over whole runs

  /** In which tick something is read or written, and how much. */
  datatype Take = Take(tick: nat, bytes: nat)

  function Max(a: int, b: int): int {
    if a < b then b else a
  }

  function Spend(b: Bucket, d: Dir, bytes: int): Bucket {
    b.(limit := b.limit.With(d, b.limit.Get(d) - bytes))
  }

  /** Each take is at most what `_bufferevent_get_rlim_max` has just answered. */
  ghost predicate Allowed(b: Bucket, cfg: Cfg, d: Dir, takes: seq<Take>)
    decreases |takes|
  {
    takes == [] ||
    (var b' := Update(b, cfg, takes[0].tick % TWO_32);
     takes[0].bytes <= Max(0, b'.limit.Get(d)) && Allowed(Spend(b', d, takes[0].bytes), cfg, d, takes[1..]))
  }

  /** The clock never jumps by 2^31 ticks. */
  ghost predicate ClockSteady(last: nat, takes: seq<Take>)
    decreases |takes|
  {
    takes == [] ||
    (-INT_MAX <= takes[0].tick - last <= INT_MAX && ClockSteady(Max(last, takes[0].tick), takes[1..]))
  }

  function Total(takes: seq<Take>): nat {
    if takes == [] then 0 else takes[0].bytes + Total(takes[1..])
  }

  /** The latest tick. */
  function Latest(last: nat, takes: seq<Take>): nat
    decreases |takes|
  {
    if takes == [] then last else Latest(Max(last, takes[0].tick), takes[1..])
  }

  /** 32-bit ticks tell forward from backward. */
  lemma TicksSteady(last: nat, tick: nat)
    requires -INT_MAX <= tick - last <= INT_MAX
    ensures var n := Ticks(last % TWO_32, tick % TWO_32);
            if tick > last then n == tick - last else n == 0 || n > INT_MAX
  {
    var n := Ticks(last % TWO_32, tick % TWO_32);
    assert n == (tick - last) % TWO_32;
  }

  lemma OneTake(b: Bucket, cfg: Cfg, d: Dir, last: nat, tick: nat)
    requires CfgOk(cfg) && BucketOk(b, cfg) && b.lastUpdated == last % TWO_32 && -INT_MAX <= tick - last <= INT_MAX
    ensures var b' := Update(b, cfg, tick % TWO_32);
            && BucketOk(b', cfg) && b'.lastUpdated == Max(last, tick) % TWO_32
            && b'.limit.Get(d) <= b.limit.Get(d) + cfg.rate.Get(d) * (Max(last, tick) - last)
  {
    hide Update, Ticks, BucketOk;
    UpdateExact(b, cfg, tick % TWO_32);
    TicksSteady(last, tick);
    var n, rate := Ticks(last % TWO_32, tick % TWO_32), cfg.rate.Get(d);
    if tick > last {
      assert Update(b, cfg, tick % TWO_32).limit.Get(d) <= b.limit.Get(d) + n * rate;
    } else {
      assert rate * 0 == 0;
    }
  }

  /** Over any run, whatever the clock does within 2^31 ticks of itself, what is taken is at most the maximum and
      the rate for each tick that has passed. */
  lemma {:induction false} TakenBound(b: Bucket, cfg: Cfg, d: Dir, last: nat, takes: seq<Take>)
    requires CfgOk(cfg) && BucketOk(b, cfg) && b.lastUpdated == last % TWO_32
    requires Allowed(b, cfg, d, takes) && ClockSteady(last, takes)
    ensures last <= Latest(last, takes)
    ensures Total(takes) <= Max(0, b.limit.Get(d)) + cfg.rate.Get(d) * (Latest(last, takes) - last)
    ensures Total(takes) <= cfg.maximum.Get(d) + cfg.rate.Get(d) * (Latest(last, takes) - last)
    decreases |takes|
  {
    hide Update, BucketOk;
    LimitKnown(b, cfg, d);
    if takes != [] {
      var t := takes[0];
      OneTake(b, cfg, d, last, t.tick);
      var b', last' := Update(b, cfg, t.tick % TWO_32), Max(last, t.tick);
      var spent := Spend(b', d, t.bytes);
      SpentOk(b', cfg, d, t.bytes);
      TakenBound(spent, cfg, d, last', takes[1..]);
      Accumulate(b.limit.Get(d), b'.limit.Get(d), t.bytes, Total(takes[1..]), cfg.rate.Get(d), last, t.tick,
        Latest(last, takes));
    } else {
      Accumulate(b.limit.Get(d), b.limit.Get(d), 0, 0, cfg.rate.Get(d), last, last, last);
    }
    Capped(b.limit.Get(d), cfg.maximum.Get(d));
  }

  lemma LimitKnown(b: Bucket, cfg: Cfg, d: Dir)
    requires CfgOk(cfg) && BucketOk(b, cfg)
    ensures b.limit.Get(d) <= cfg.maximum.Get(d) && 1 <= cfg.rate.Get(d) <= cfg.maximum.Get(d)
  {
  }

  lemma Capped(limit: int, maximum: int)
    requires limit <= maximum && 0 < maximum
    ensures Max(0, limit) <= maximum
  {
  }

  lemma SpentOk(b: Bucket, cfg: Cfg, d: Dir, bytes: nat)
    requires CfgOk(cfg) && BucketOk(b, cfg) && bytes <= Max(0, b.limit.Get(d))
    ensures BucketOk(Spend(b, d, bytes), cfg)
  {
    forall x: Dir ensures -TWO_63 <= Spend(b, d, bytes).limit.Get(x) <= cfg.maximum.Get(x) {
      assert -TWO_63 <= b.limit.Get(x) <= cfg.maximum.Get(x);
    }
  }

  /** The arithmetic of one step: `rest` is what is taken after it. */
  lemma Accumulate(limit: int, limit': int, bytes: nat, rest: nat, rate: int, last: nat, tick: nat, end: nat)
    requires rate >= 1 && bytes <= Max(0, limit') && Max(last, tick) <= end
    requires limit' <= limit + rate * (Max(last, tick) - last)
    requires rest <= Max(0, limit' - bytes) + rate * (end - Max(last, tick))
    ensures last <= end && last <= Max(last, tick) && bytes + rest <= Max(0, limit) + rate * (end - last)
  {
    var last' := Max(last, tick);
    assert rate * (last' - last) + rate * (end - last') == rate * (end - last);
    assert rate * (last' - last) >= 0;
  }
}
