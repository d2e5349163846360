/** The token bucket behind every relay route (relay/store.js, makeRateLimiter). Times are
    whole milliseconds, as the clock gives them; tokens are real numbers. */
module RateLimiter {
  import opened Common

  datatype Params = Params(capacity: nat, refillPerSec: real)

  datatype Bucket = Bucket(tokens: real, at: int)

  const IDLE_MS := 300000

  function Min(a: real, b: real): real { if a <= b then a else b }

  function Refill(p: Params, ms: int): real { (ms as real / 1000.0) * p.refillPerSec }

  /** The tokens there are at `now`. */
  function Level(p: Params, b: Bucket, now: int): real {
    Min(p.capacity as real, b.tokens + Refill(p, now - b.at))
  }

  function Or<T>(o: Option<T>, d: T): T { if o.Some? then o.value else d }

  /** One request: the bucket it leaves, and whether it is granted. */
  function Take(p: Params, b: Option<Bucket>, now: int): (Bucket, bool) {
    var level := Level(p, Or(b, Bucket(p.capacity as real, now)), now);
    if level < 1.0 then (Bucket(level, now), false) else (Bucket(level - 1.0, now), true)
  }

  function Answers(p: Params, b: Option<Bucket>, times: seq<int>): (r: seq<bool>)
    ensures |r| == |times|
    decreases |times|
  {
    if times == [] then []
    else
      var (next, ok) := Take(p, b, times[0]);
      [ok] + Answers(p, Some(next), times[1..])
  }

  function Granted(answers: seq<bool>): nat {
    if answers == [] then 0 else (if answers[0] then 1 else 0) + Granted(answers[1..])
  }

  predicate Ordered(times: seq<int>) { forall i, j | 0 <= i <= j < |times| :: times[i] <= times[j] }

  predicate Sane(p: Params, b: Bucket) { 0.0 <= b.tokens <= p.capacity as real }

  predicate Later(times: seq<int>, e: int) { Ordered(times) && forall i | 0 <= i < |times| :: e <= times[i] }

  // --- the bound over a window ----------------------------------------------------------------------

  lemma RefillAdds(p: Params, a: int, b: int)
    ensures Refill(p, a + b) == Refill(p, a) + Refill(p, b)
  {
    assert (a + b) as real / 1000.0 == a as real / 1000.0 + b as real / 1000.0;
    var x, y := a as real / 1000.0, b as real / 1000.0;
    assert (x + y) * p.refillPerSec == x * p.refillPerSec + y * p.refillPerSec;
  }

  lemma RefillPositive(p: Params, ms: int)
    requires ms >= 0 && p.refillPerSec >= 0.0
    ensures Refill(p, ms) >= 0.0
  {
    var x := ms as real / 1000.0;
    assert x >= 0.0;
    Times(x, p.refillPerSec);
  }

  lemma Times(x: real, y: real)
    requires x >= 0.0 && y >= 0.0
    ensures x * y >= 0.0
  {}

  lemma {:induction false} Spending(p: Params, b: Bucket, times: seq<int>)
    requires Sane(p, b) && p.refillPerSec >= 0.0 && Later(times, b.at) && times != []
    ensures Granted(Answers(p, Some(b), times)) as real <= b.tokens + Refill(p, times[|times| - 1] - b.at)
    decreases |times|
  {
    var t, end := times[0], times[|times| - 1];
    var (next, ok) := Take(p, Some(b), t);
    RefillPositive(p, t - b.at);
    RefillAdds(p, t - b.at, end - t);
    RefillPositive(p, end - t);
    hide Refill;
    var rest := Answers(p, Some(next), times[1..]);
    assert ([ok] + rest)[1..] == rest;
    if |times| > 1 {
      assert times[1..][|times| - 2] == end;
      assert Later(times[1..], t) by {
        assert forall i | 0 <= i < |times[1..]| :: times[1..][i] == times[i + 1];
      }
      Spending(p, next, times[1..]);
    } else {
      assert rest == [];
    }
  }

  /** A bucket nobody evicts grants at most its capacity plus the refill of the time it was
      asked over, whatever the pattern of requests. */
  lemma WindowBound(p: Params, times: seq<int>)
    requires p.refillPerSec >= 0.0 && Ordered(times) && times != []
    ensures Granted(Answers(p, None, times)) as real
            <= p.capacity as real + Refill(p, times[|times| - 1] - times[0])
  {
    var b := Bucket(p.capacity as real, times[0]);
    assert Take(p, None, times[0]) == Take(p, Some(b), times[0]);
    assert Answers(p, None, times) == Answers(p, Some(b), times);
    Spending(p, b, times);
  }

  // --- idle eviction ------------------------------------------------------------------------------------

  predicate Evictable(b: Bucket, e: int) { e - b.at > IDLE_MS }

  lemma RefillGrows(p: Params, a: int, b: int)
    requires a <= b && p.refillPerSec >= 0.0
    ensures Refill(p, a) <= Refill(p, b)
  {
    RefillAdds(p, a, b - a);
    RefillPositive(p, b - a);
  }

  /** An idle bucket that would be full again is as good as none. */
  lemma FullAgain(p: Params, b: Bucket, e: int, times: seq<int>)
    requires p.refillPerSec >= 0.0 && 300.001 * p.refillPerSec >= p.capacity as real
    requires Sane(p, b) && Evictable(b, e) && Later(times, e)
    ensures Answers(p, Some(b), times) == Answers(p, None, times)
  {
    if times != [] {
      RefillGrows(p, IDLE_MS + 1, times[0] - b.at);
      assert Refill(p, IDLE_MS + 1) == 300.001 * p.refillPerSec;
      assert Refill(p, 0) == 0.0;
      hide Refill;
      var full := Bucket(p.capacity as real, times[0]);
      SameLevel(p, Some(b), full, times);
      SameLevel(p, None, full, times);
    }
  }

  function Burst(t: int, n: nat): seq<int> { seq(n, i => t) }

  function Falses(n: nat): seq<bool> { seq(n, i => false) }

  function Trues(n: nat): seq<bool> { seq(n, i => true) }

  /** Asked n times at one instant, a bucket of k whole tokens and a bit grants the first k. */
  lemma {:induction false} BurstGrants(p: Params, b: Bucket, k: nat, n: nat)
    requires Sane(p, b) && k as real <= b.tokens < k as real + 1.0 && n >= k
    ensures Answers(p, Some(b), Burst(b.at, n)) == Trues(k) + Falses(n - k)
    ensures n == k == p.capacity && b.tokens == k as real ==> Granted(Answers(p, Some(b), Burst(b.at, n))) == k
    decreases n
  {
    assert Refill(p, 0) == 0.0;
    if n > 0 {
      var times := Burst(b.at, n);
      var (next, ok) := Take(p, Some(b), b.at);
      assert times[1..] == Burst(b.at, n - 1);
      if k > 0 {
        BurstGrants(p, next, k - 1, n - 1);
        assert [true] + (Trues(k - 1) + Falses(n - k)) == Trues(k) + Falses(n - k);
      } else {
        BurstGrants(p, next, 0, n - 1);
        assert [false] + (Trues(0) + Falses(n - 1)) == Trues(0) + Falses(n);
      }
    }
    AllTrue(k);
    assert n == k ==> Trues(k) + Falses(0) == Trues(k);
  }

  lemma {:induction false} AllTrue(k: nat)
    ensures Granted(Trues(k)) == k
  {
    if k > 0 {
      assert Trues(k)[1..] == Trues(k - 1);
      AllTrue(k - 1);
    }
  }

  /** Evicting idle buckets never changes an answer exactly when five idle minutes refill a
      bucket from empty; otherwise a drained one comes back full. */
  lemma EvictionHarmlessExactly(p: Params)
    requires p.refillPerSec >= 0.0
    ensures (forall b: Bucket, e: int, times: seq<int> | Sane(p, b) && Evictable(b, e) && Later(times, e) ::
               Answers(p, Some(b), times) == Answers(p, None, times))
            <==> 300.001 * p.refillPerSec >= p.capacity as real
  {
    if 300.001 * p.refillPerSec >= p.capacity as real {
      forall b: Bucket, e: int, times: seq<int> | Sane(p, b) && Evictable(b, e) && Later(times, e)
        ensures Answers(p, Some(b), times) == Answers(p, None, times)
      {
        FullAgain(p, b, e, times);
      }
    } else {
      DrainedComesBack(p);
    }
  }

  lemma DrainedComesBack(p: Params)
    requires p.refillPerSec >= 0.0 && 300.001 * p.refillPerSec < p.capacity as real
    ensures exists b: Bucket, e: int, times: seq<int> ::
              Sane(p, b) && Evictable(b, e) && Later(times, e) && Answers(p, Some(b), times) != Answers(p, None, times)
  {
    var b, e := Bucket(0.0, 0), IDLE_MS + 1;
    var level := Refill(p, e);
    assert level == 300.001 * p.refillPerSec;
    RefillPositive(p, e);
    assert Refill(p, 0) == 0.0;
    hide Refill;
    var n, k := p.capacity, level.Floor;
    var times := Burst(e, n);
    SameLevel(p, Some(b), Bucket(level, e), times);
    SameLevel(p, None, Bucket(n as real, e), times);
    BurstGrants(p, Bucket(level, e), k, n);
    BurstGrants(p, Bucket(n as real, e), n, n);
    var x, y := Answers(p, Some(b), times), Answers(p, None, times);
    assert x == Trues(k) + Falses(n - k) && y == Trues(n) + Falses(0);
    assert !x[k] && y[k];
    assert Later(times, e);
  }

  /** Only the level at the first request matters. */
  lemma SameLevel(p: Params, b: Option<Bucket>, c: Bucket, times: seq<int>)
    requires times != [] && times[0] == c.at && Refill(p, 0) == 0.0 && c.tokens <= p.capacity as real
    requires Level(p, Or(b, Bucket(p.capacity as real, c.at)), c.at) == c.tokens
    ensures Answers(p, b, times) == Answers(p, Some(c), times)
  {
    hide Refill;
    assert Level(p, c, c.at) == c.tokens;
    assert Take(p, b, c.at) == Take(p, Some(c), c.at);
  }

  /** The bucket a series of requests leaves. */
  function Left(p: Params, b: Bucket, times: seq<int>): Bucket
    decreases |times|
  {
    if times == [] then b else Left(p, Take(p, Some(b), times[0]).0, times[1..])
  }

  lemma {:induction false} BurstDrains(p: Params, b: Bucket, n: nat)
    requires Sane(p, b) && b.tokens == n as real
    ensures Left(p, b, Burst(b.at, n)) == Bucket(0.0, b.at)
    decreases n
  {
    assert Refill(p, 0) == 0.0;
    if n > 0 {
      assert Burst(b.at, n)[1..] == Burst(b.at, n - 1);
      BurstDrains(p, Take(p, Some(b), b.at).0, n - 1);
    }
  }

  // --- one bucket under the minute timer ---------------------------------------------------------------

  const MINUTE_MS := 60000

  datatype Event = Asked(at: int) | MinuteTick(at: int)

  /** A key's bucket through requests and timer ticks, and the requests granted. */
  function Run(p: Params, b: Option<Bucket>, es: seq<Event>): (Option<Bucket>, nat)
    decreases |es|
  {
    if es == [] then (b, 0)
    else match es[0]
      case Asked(at) =>
        var (next, ok) := Take(p, b, at);
        var (end, n) := Run(p, Some(next), es[1..]);
        (end, (if ok then 1 else 0) + n)
      case MinuteTick(at) => Run(p, if b.Some? && Evictable(b.value, at) then None else b, es[1..])
  }

  function Asks(times: seq<int>): (es: seq<Event>)
    ensures |es| == |times|
  {
    if times == [] then [] else [Asked(times[0])] + Asks(times[1..])
  }

  function Ticks(x: int, n: nat): (es: seq<Event>)
    ensures |es| == n
    decreases n
  {
    if n == 0 then [] else [MinuteTick(x)] + Ticks(x + MINUTE_MS, n - 1)
  }

  lemma {:induction false} RunJoins(p: Params, b: Option<Bucket>, xs: seq<Event>, ys: seq<Event>)
    ensures Run(p, b, xs + ys)
            == (Run(p, Run(p, b, xs).0, ys).0, Run(p, b, xs).1 + Run(p, Run(p, b, xs).0, ys).1)
    decreases |xs|
  {
    if xs == [] {
      assert xs + ys == ys;
    } else {
      assert (xs + ys)[1..] == xs[1..] + ys;
      hide Take, Evictable;
      var next := match xs[0]
                  case Asked(at) => Some(Take(p, b, at).0)
                  case MinuteTick(at) => if b.Some? && Evictable(b.value, at) then None else b;
      RunJoins(p, next, xs[1..], ys);
    }
  }

  lemma {:induction false} RunAsks(p: Params, b: Bucket, times: seq<int>)
    ensures Run(p, Some(b), Asks(times)) == (Some(Left(p, b, times)), Granted(Answers(p, Some(b), times)))
    decreases |times|
  {
    hide Take;
    if times != [] { RunAsks(p, Take(p, Some(b), times[0]).0, times[1..]); }
  }

  /** The sixth tick behind an idle bucket's last request is the first that can take it, and does. */
  lemma SixTicksEvict(p: Params, b: Bucket, x: int)
    requires b.at < x <= b.at + MINUTE_MS
    ensures Run(p, Some(b), Ticks(x, 5)) == (Some(b), 0) && Run(p, Some(b), Ticks(x, 6)) == (None, 0)
  {
    TicksPass(p, b, x, 5);
    TicksSplit(x, 5);
    RunJoins(p, Some(b), Ticks(x, 5), [MinuteTick(x + 5 * MINUTE_MS)]);
    assert [MinuteTick(x + 5 * MINUTE_MS)][1..] == [];
  }

  lemma {:induction false} TicksPass(p: Params, b: Bucket, x: int, n: nat)
    requires x + (n - 1) * MINUTE_MS <= b.at + IDLE_MS
    ensures Run(p, Some(b), Ticks(x, n)) == (Some(b), 0)
    decreases n
  {
    if n > 0 { TicksPass(p, b, x + MINUTE_MS, n - 1); }
  }

  lemma {:induction false} TicksSplit(x: int, n: nat)
    ensures Ticks(x, n + 1) == Ticks(x, n) + [MinuteTick(x + n * MINUTE_MS)]
    decreases n
  {
    if n > 0 { TicksSplit(x + MINUTE_MS, n - 1); }
  }

  /** The Let's Encrypt pace: a burst of 25 and 40 more a week. */
  const LETS_ENCRYPT := Params(25, 40.0 / 604800.0)

  const SIX_MINUTES_MS := 360000

  /** A burst of 25 every six minutes, and every tick of the timer, which comes first at x. */
  function Bursts(n: nat, t: int, x: int): seq<Event>
    decreases n
  {
    if n == 0 then [] else (Asks(Burst(t, 25)) + Ticks(x, 6)) + Bursts(n - 1, t + SIX_MINUTES_MS, x + SIX_MINUTES_MS)
  }

  /** The weekly budget is forgotten every six minutes, wherever the timer's minute falls: each
      burst drains the bucket, the timer evicts it before the next, and all are granted in full. */
  lemma {:induction false} WeeklyPaceIsForgotten(n: nat, t: int, x: int)
    requires t < x <= t + MINUTE_MS
    ensures !(300.001 * LETS_ENCRYPT.refillPerSec >= LETS_ENCRYPT.capacity as real)
    ensures Run(LETS_ENCRYPT, None, Bursts(n, t, x)) == (None, 25 * n)
    decreases n
  {
    var p := LETS_ENCRYPT;
    if n > 0 {
      OneBurst(t, x);
      RunJoins(p, None, Asks(Burst(t, 25)) + Ticks(x, 6), Bursts(n - 1, t + SIX_MINUTES_MS, x + SIX_MINUTES_MS));
      WeeklyPaceIsForgotten(n - 1, t + SIX_MINUTES_MS, x + SIX_MINUTES_MS);
    }
  }

  lemma OneBurst(t: int, x: int)
    requires t < x <= t + MINUTE_MS
    ensures Run(LETS_ENCRYPT, None, Asks(Burst(t, 25)) + Ticks(x, 6)) == (None, 25)
  {
    var p, b, times := LETS_ENCRYPT, Bucket(25.0, t), Burst(t, 25);
    assert Refill(p, 0) == 0.0;
    FullOrNone(p, b, times);
    RunAsks(p, b, times);
    BurstGrants(p, b, 25, 25);
    BurstDrains(p, b, 25);
    RunJoins(p, None, Asks(times), Ticks(x, 6));
    SixTicksEvict(p, Bucket(0.0, t), x);
  }

  /** No bucket is as good as a full one. */
  lemma FullOrNone(p: Params, b: Bucket, times: seq<int>)
    requires times != [] && times[0] == b.at && b.tokens == p.capacity as real && Refill(p, 0) == 0.0
    ensures Run(p, None, Asks(times)) == Run(p, Some(b), Asks(times))
  {
    hide Refill;
    assert Take(p, None, b.at) == Take(p, Some(b), b.at);
  }

  // --- the limiter, in place ------------------------------------------------------------------------------

  class Limiter {
    const p: Params
    var buckets: map<string, Bucket>

    function Get(key: string): Option<Bucket>
      reads this
    {
      if key in buckets then Some(buckets[key]) else None
    }

    constructor (capacity: nat, refillPerSec: real)
      ensures p == Params(capacity, refillPerSec) && buckets == map[]
    {
      p := Params(capacity, refillPerSec);
      buckets := map[];
    }

    /** One request for a key. */
    method Ask(key: string, now: int) returns (ok: bool)
      modifies this
      ensures (Some(Take(p, old(Get(key)), now).0), Take(p, old(Get(key)), now).1) == (Get(key), ok)
      ensures forall k | k != key :: Get(k) == old(Get(k))
    {
      var b := if key in buckets then buckets[key] else Bucket(p.capacity as real, now);
      var tokens := Min(p.capacity as real, b.tokens + ((now - b.at) as real / 1000.0) * p.refillPerSec);
      if tokens < 1.0 {
        buckets := buckets[key := Bucket(tokens, now)];
        return false;
      }
      buckets := buckets[key := Bucket(tokens - 1.0, now)];
      return true;
    }

    /** The minute timer. */
    method EvictIdle(now: int)
      modifies this
      ensures forall k :: Get(k) == if old(Get(k)).Some? && Evictable(old(Get(k)).value, now) then None else old(Get(k))
    {
      ghost var was := buckets;
      var left := buckets.Keys;
      while left != {}
        invariant left <= was.Keys
        invariant forall k :: k in buckets <==> k in was && (k in left || !Evictable(was[k], now))
        invariant forall k | k in buckets :: buckets[k] == was[k]
      {
        var k :| k in left;
        left := left - {k};
        if now - buckets[k].at > IDLE_MS { buckets := buckets - {k}; }
      }
    }
  }
}
