/** Single-use signatures on the certificate route (relay/fleet-auth.js, makeReplayCache;
    relay/certs.js, the freshness gate): the marks may be forgotten only because the
    timestamp window already refuses what they guarded. */
module ReplayGate {
  import opened Common

  const TS_SKEW_SEC := 600
  const PRUNE_ABOVE := 10000

  /** Which factor strings verify for which timestamp; the signed tuple names it, so each
      string verifies for one at most. */
  type Verifies = (string, int) -> bool

  ghost predicate OneTimestamp(v: Verifies) { forall s, t, u :: v(s, t) && v(s, u) ==> t == u }

  /** A request: its timestamp, the operator's signature, and the fleet HMAC when sent. The
      clock is read twice, in milliseconds: by the window check, and again by the cache, once
      the name is authorized and the CSR parsed. */
  datatype Request = Request(gateMs: nat, cacheMs: nat, ts: int, opSig: string, hmac: Option<string>)

  function Factors(r: Request): seq<string> { if r.hmac.Some? then [r.opSig, r.hmac.value] else [r.opSig] }

  predicate InWindow(r: Request) {
    -TS_SKEW_SEC * 1000 <= r.gateMs - r.ts * 1000 <= TS_SKEW_SEC * 1000
  }

  // --- the cache ------------------------------------------------------------------------------------

  function Pruned(seen: map<string, int>, now: int): map<string, int> {
    if |seen| > PRUNE_ABOVE then map k | k in seen && seen[k] >= now :: seen[k] else seen
  }

  /** One mark: was it new? */
  function Mark(seen: map<string, int>, s: string, expiry: int, now: int): (map<string, int>, bool) {
    var kept := Pruned(seen, now);
    if s in kept then (kept, false) else (kept[s := expiry], true)
  }

  class ReplayCache {
    var seen: map<string, int>

    constructor ()
      ensures seen == map[]
    {
      seen := map[];
    }

    method Fresh(s: string, expiry: int, nowMs: nat) returns (ok: bool)
      modifies this
      ensures (seen, ok) == Mark(old(seen), s, expiry, nowMs / 1000)
    {
      var now := nowMs / 1000;
      if |seen| > PRUNE_ABOVE {
        ghost var was := seen;
        var left := seen.Keys;
        while left != {}
          invariant left <= was.Keys
          invariant forall k :: k in seen <==> k in was && (k in left || was[k] >= now)
          invariant forall k | k in seen :: seen[k] == was[k]
        {
          var k :| k in left;
          left := left - {k};
          if seen[k] < now { seen := seen - {k}; }
        }
        assert seen == Pruned(was, now);
      }
      if s in seen { return false; }
      seen := seen[s := expiry];
      return true;
    }
  }

  // --- the route's gate -----------------------------------------------------------------------------

  function MarkAll(seen: map<string, int>, fs: seq<string>, expiry: int, now: int): (map<string, int>, bool)
    decreases |fs|
  {
    if fs == [] then (seen, true)
    else
      var (one, ok) := Mark(seen, fs[0], expiry, now);
      var (all, rest) := MarkAll(one, fs[1..], expiry, now);
      (all, ok && rest)
  }

  /** Every factor present is spent before any is judged. */
  function Gate(seen: map<string, int>, r: Request): (map<string, int>, bool) {
    if InWindow(r) then MarkAll(seen, Factors(r), r.ts + TS_SKEW_SEC, r.cacheMs / 1000) else (seen, false)
  }

  predicate AllVerify(v: Verifies, r: Request) { forall s <- Factors(r) :: v(s, r.ts) }

  /** The requests that passed the gate and verified, over a process's life. */
  function Accepted(seen: map<string, int>, rs: seq<Request>, v: Verifies): seq<Request>
    decreases |rs|
  {
    if rs == [] then []
    else
      var (next, ok) := Gate(seen, rs[0]);
      (if ok && AllVerify(v, rs[0]) then [rs[0]] else []) + Accepted(next, rs[1..], v)
  }

  /** The clock never steps back, within a request and from one to the next. */
  predicate Monotone(rs: seq<Request>) {
    (forall i | 0 <= i < |rs| :: rs[i].gateMs <= rs[i].cacheMs)
    && forall i, j | 0 <= i < j < |rs| :: rs[i].cacheMs <= rs[j].gateMs
  }

  /** Between the two readings of a request at most so many milliseconds pass. */
  predicate Within(rs: seq<Request>, gapMs: nat) {
    forall i | 0 <= i < |rs| :: rs[i].cacheMs - rs[i].gateMs <= gapMs
  }

  const LONGEST_GAP_MS := 999

  // --- why forgetting is safe --------------------------------------------------------------------------

  /** The string cannot pass again for this timestamp: it is marked, or the window is over. */
  predicate Spent(seen: map<string, int>, s: string, ts: int, nowMs: int) {
    (s in seen && seen[s] == ts + TS_SKEW_SEC) || ts + TS_SKEW_SEC < nowMs / 1000
  }

  lemma MarkKeepsSpent(seen: map<string, int>, f: string, expiry: int, now: int, s: string, ts: int, nowMs: int)
    requires Spent(seen, s, ts, nowMs) && now == nowMs / 1000
    ensures Spent(Mark(seen, f, expiry, now).0, s, ts, nowMs)
  {}

  lemma {:induction false} MarkAllKeepsSpent(seen: map<string, int>, fs: seq<string>, expiry: int, nowMs: int, s: string, ts: int)
    requires Spent(seen, s, ts, nowMs)
    ensures Spent(MarkAll(seen, fs, expiry, nowMs / 1000).0, s, ts, nowMs)
    decreases |fs|
  {
    hide Mark, Spent;
    if fs != [] {
      MarkKeepsSpent(seen, fs[0], expiry, nowMs / 1000, s, ts, nowMs);
      MarkAllKeepsSpent(Mark(seen, fs[0], expiry, nowMs / 1000).0, fs[1..], expiry, nowMs, s, ts);
    }
  }

  /** Whatever passes the gate is spent by passing it. */
  lemma {:induction false} MarkAllSpends(seen: map<string, int>, fs: seq<string>, ts: int, nowMs: int, s: string)
    requires s in fs && MarkAll(seen, fs, ts + TS_SKEW_SEC, nowMs / 1000).1
    ensures Spent(MarkAll(seen, fs, ts + TS_SKEW_SEC, nowMs / 1000).0, s, ts, nowMs)
    decreases |fs|
  {
    var one := Mark(seen, fs[0], ts + TS_SKEW_SEC, nowMs / 1000).0;
    if s == fs[0] {
      MarkAllKeepsSpent(one, fs[1..], ts + TS_SKEW_SEC, nowMs, s, ts);
    } else {
      assert fs == [fs[0]] + fs[1..];
      MarkAllSpends(one, fs[1..], ts, nowMs, s);
    }
  }

  lemma {:induction false} MarkAllRefuses(seen: map<string, int>, fs: seq<string>, expiry: int, nowMs: int, s: string, ts: int)
    requires s in fs && Spent(seen, s, ts, nowMs) && ts + TS_SKEW_SEC >= nowMs / 1000
    ensures !MarkAll(seen, fs, expiry, nowMs / 1000).1
    decreases |fs|
  {
    if s != fs[0] {
      assert fs == [fs[0]] + fs[1..];
      MarkKeepsSpent(seen, fs[0], expiry, nowMs / 1000, s, ts, nowMs);
      MarkAllRefuses(Mark(seen, fs[0], expiry, nowMs / 1000).0, fs[1..], expiry, nowMs, s, ts);
    }
  }

  lemma SpentLater(seen: map<string, int>, s: string, ts: int, a: int, b: int)
    requires Spent(seen, s, ts, a) && a <= b
    ensures Spent(seen, s, ts, b)
  {}

  /** A mark old enough to be pruned guards nothing: the window refuses the timestamp, as long
      as the cache reads the clock within a second of the window check. */
  lemma SpentIsRefused(seen: map<string, int>, r: Request, s: string)
    requires s in Factors(r) && Spent(seen, s, r.ts, r.gateMs)
    requires r.gateMs <= r.cacheMs <= r.gateMs + LONGEST_GAP_MS
    ensures !Gate(seen, r).1
  {
    if InWindow(r) {
      SpentLater(seen, s, r.ts, r.gateMs, r.cacheMs);
      MarkAllRefuses(seen, Factors(r), r.ts + TS_SKEW_SEC, r.cacheMs, s, r.ts);
    }
  }

  lemma GateKeepsSpent(seen: map<string, int>, r: Request, s: string, ts: int)
    requires Spent(seen, s, ts, r.cacheMs)
    ensures Spent(Gate(seen, r).0, s, ts, r.cacheMs)
  {
    MarkAllKeepsSpent(seen, Factors(r), r.ts + TS_SKEW_SEC, r.cacheMs, s, ts);
  }

  lemma TailMonotone(rs: seq<Request>, gapMs: nat)
    requires rs != [] && Monotone(rs) && Within(rs, gapMs)
    ensures Monotone(rs[1..]) && Within(rs[1..], gapMs) && rs[0].gateMs <= rs[0].cacheMs <= rs[0].gateMs + gapMs
    ensures forall r :: r in rs[1..] ==> rs[0].cacheMs <= r.gateMs
  {
    assert forall i | 0 <= i < |rs[1..]| :: rs[1..][i] == rs[i + 1];
  }

  /** Nothing accepted later carries a string already spent. */
  lemma {:induction false} SpentStaysOut(seen: map<string, int>, rs: seq<Request>, v: Verifies, s: string, ts: int, nowMs: int)
    requires OneTimestamp(v) && Monotone(rs) && Within(rs, LONGEST_GAP_MS) && v(s, ts) && Spent(seen, s, ts, nowMs)
    requires forall r :: r in rs ==> nowMs <= r.gateMs
    ensures forall r :: r in Accepted(seen, rs, v) ==> s !in Factors(r)
    decreases |rs|
  {
    hide Gate, Factors, Spent, Monotone, Within;
    if rs != [] {
      var r := rs[0];
      TailMonotone(rs, LONGEST_GAP_MS);
      assert r in rs;
      SpentLater(seen, s, ts, nowMs, r.gateMs);
      SpentLater(seen, s, ts, nowMs, r.cacheMs);
      GateKeepsSpent(seen, r, s, ts);
      if s in Factors(r) && AllVerify(v, r) {
        assert r.ts == ts;
        SpentIsRefused(seen, r, s);
      }
      SpentStaysOut(Gate(seen, r).0, rs[1..], v, s, ts, r.cacheMs);
    }
  }

  // --- main result ---------------------------------------------------------------------------------------

  predicate Disjoint(a: Request, b: Request) { forall s <- Factors(a) :: s !in Factors(b) }

  predicate AllDisjoint(rs: seq<Request>) { forall i, j | 0 <= i < j < |rs| :: Disjoint(rs[i], rs[j]) }

  lemma Prepend(r: Request, rest: seq<Request>)
    requires AllDisjoint(rest) && forall q :: q in rest ==> Disjoint(r, q)
    ensures AllDisjoint([r] + rest)
  {
    hide Disjoint;
    var a := [r] + rest;
    forall i, j | 0 <= i < j < |a| ensures Disjoint(a[i], a[j]) {
      assert a[j] == rest[j - 1] && a[j] in rest;
      if i > 0 { assert a[i] == rest[i - 1]; }
    }
  }

  /** With a clock that never steps back and less than a second between a request's two readings
      of it, no factor string is part of two requests that pass the freshness gate and verify,
      however many marks are pruned in between. */
  lemma {:induction false} EachSignatureCountsOnce(seen: map<string, int>, rs: seq<Request>, v: Verifies)
    requires OneTimestamp(v) && Monotone(rs) && Within(rs, LONGEST_GAP_MS)
    ensures AllDisjoint(Accepted(seen, rs, v))
    decreases |rs|
  {
    hide Gate, Factors, MarkAll, AllDisjoint, Monotone, Within;
    if rs == [] {
      NoneDisjoint();
    } else {
      var r := rs[0];
      var (next, ok) := Gate(seen, r);
      TailMonotone(rs, LONGEST_GAP_MS);
      EachSignatureCountsOnce(next, rs[1..], v);
      var rest := Accepted(next, rs[1..], v);
      if ok && AllVerify(v, r) {
        forall q | q in rest ensures Disjoint(r, q) {
          forall s | s in Factors(r) ensures s !in Factors(q) {
            GateSpends(seen, r, s);
            SpentStaysOut(next, rs[1..], v, s, r.ts, r.cacheMs);
          }
        }
        Prepend(r, rest);
      } else {
        assert [] + rest == rest;
      }
    }
  }

  lemma NoneDisjoint()
    ensures AllDisjoint([])
  {}

  lemma GateSpends(seen: map<string, int>, r: Request, s: string)
    requires Gate(seen, r).1 && s in Factors(r)
    ensures Spent(Gate(seen, r).0, s, r.ts, r.cacheMs)
  {
    MarkAllSpends(seen, Factors(r), r.ts, r.cacheMs, s);
  }

  // --- the gap between the two readings -------------------------------------------------------------------

  /** n marks with one far expiry. */
  function Filler(n: nat): (m: map<string, int>)
    ensures |m| == n
    ensures forall k | k in m :: 0 < |k| <= n && k[0] == 'a' && m[k] == 10000
  {
    if n == 0 then map[] else Filler(n - 1)[seq(n, i => 'a') := 10000]
  }

  /** A signature of second 1000, first used then, and again at the last moment of its window:
      the cache, a second later, has pruned its mark and lets it through. */
  function Replay(gapMs: nat): seq<Request> {
    [Request(1000000, 1000000, 1000, "s", None), Request(1600000, 1600000 + gapMs, 1000, "s", None)]
  }

  predicate OfSecond1000(s: string, t: int) { t == 1000 }

  lemma ReplayRuns(gapMs: nat)
    ensures OneTimestamp(OfSecond1000) && Monotone(Replay(gapMs)) && Within(Replay(gapMs), gapMs)
  {}

  lemma ReplayPasses(gapMs: nat)
    requires gapMs >= 1000
    ensures Accepted(Filler(PRUNE_ABOVE + 1), Replay(gapMs), OfSecond1000) == Replay(gapMs)
    ensures !AllDisjoint(Replay(gapMs))
  {
    var m, rs := Filler(PRUNE_ABOVE + 1), Replay(gapMs);
    FirstUse(m, rs[0]);
    LastUse(m["s" := 1600], rs[1]);
    assert "s" in Factors(rs[0]) && "s" in Factors(rs[1]);
    assert !Disjoint(rs[0], rs[1]);
    hide Filler, Gate, Disjoint;
    BothAccepted(m, rs[0], rs[1]);
  }

  lemma BothAccepted(seen: map<string, int>, a: Request, b: Request)
    requires a.ts == 1000 && b.ts == 1000 && Gate(seen, a).1 && Gate(Gate(seen, a).0, b).1
    ensures Accepted(seen, [a, b], OfSecond1000) == [a, b]
  {
    hide Gate;
    var next := Gate(seen, a).0;
    assert [a, b][1..] == [b] && [b][1..] == [];
    assert Accepted(Gate(next, b).0, [], OfSecond1000) == [];
    assert Accepted(next, [b], OfSecond1000) == [b];
  }

  lemma FirstUse(m: map<string, int>, r: Request)
    requires forall k | k in m :: k != "" && k[0] == 'a' && m[k] == 10000
    requires r == Request(1000000, 1000000, 1000, "s", None)
    ensures Gate(m, r) == (m["s" := 1600], true)
  {
    MarksOne(m, r);
    assert "s"[0] != 'a';
    assert Pruned(m, 1000) == m;
  }

  lemma LastUse(m: map<string, int>, r: Request)
    requires |m| > PRUNE_ABOVE && "s" in m && m["s"] == 1600
    requires r.gateMs == 1600000 && r.cacheMs >= 1601000 && r.ts == 1000 && r.opSig == "s" && r.hmac.None?
    ensures Gate(m, r).1
  {
    MarksOne(m, r);
  }

  /** A request with one factor marks just that. */
  lemma MarksOne(seen: map<string, int>, r: Request)
    requires r.hmac.None? && InWindow(r)
    ensures Gate(seen, r) == Mark(seen, r.opSig, r.ts + TS_SKEW_SEC, r.cacheMs / 1000)
  {
    assert [r.opSig][1..] == [];
    hide Mark;
    var (one, ok) := Mark(seen, r.opSig, r.ts + TS_SKEW_SEC, r.cacheMs / 1000);
    assert MarkAll(one, [], r.ts + TS_SKEW_SEC, r.cacheMs / 1000) == (one, true);
  }

  lemma WithinMore(rs: seq<Request>, gapMs: nat)
    requires Within(rs, gapMs) && gapMs <= LONGEST_GAP_MS
    ensures Within(rs, LONGEST_GAP_MS)
  {}

  /** Signatures count once in every run exactly if the readings are less than a second apart:
      the window check is exact to the millisecond, the pruning to the second. */
  lemma GapMattersExactly(gapMs: nat)
    ensures (forall seen: map<string, int>, rs: seq<Request>, v: Verifies | OneTimestamp(v) && Monotone(rs) && Within(rs, gapMs) ::
               AllDisjoint(Accepted(seen, rs, v)))
            <==> gapMs < 1000
  {
    hide Accepted, AllDisjoint, OneTimestamp, Monotone, Within, Replay, Filler, OfSecond1000;
    if gapMs < 1000 {
      forall seen: map<string, int>, rs: seq<Request>, v: Verifies | OneTimestamp(v) && Monotone(rs) && Within(rs, gapMs)
        ensures AllDisjoint(Accepted(seen, rs, v))
      {
        WithinMore(rs, gapMs);
        EachSignatureCountsOnce(seen, rs, v);
      }
    } else {
      ReplayPasses(gapMs);
      ReplayRuns(gapMs);
    }
  }

  /** A request is let past the window check exactly within ten minutes of its timestamp, before
      or after, and outside it spends nothing. */
  lemma WindowExactly(seen: map<string, int>, r: Request)
    ensures InWindow(r) <==> (r.ts - 600) * 1000 <= r.gateMs <= (r.ts + 600) * 1000
    ensures !InWindow(r) ==> Gate(seen, r) == (seen, false)
  {}

  /** The gate refuses nothing else: inside the window, strings never marked before pass. */
  lemma NewSignaturesPass(seen: map<string, int>, r: Request)
    requires InWindow(r) && r.opSig !in seen && (r.hmac.Some? ==> r.hmac.value !in seen && r.hmac.value != r.opSig)
    ensures Gate(seen, r).1
  {
    var fs, e, now := Factors(r), r.ts + TS_SKEW_SEC, r.cacheMs / 1000;
    var one := Mark(seen, fs[0], e, now).0;
    if r.hmac.Some? {
      assert fs[1..] == [r.hmac.value] && fs[1..][1..] == [];
      assert r.hmac.value !in one;
      var two := Mark(one, r.hmac.value, e, now).0;
      assert MarkAll(two, [], e, now).1;
      assert MarkAll(one, [r.hmac.value], e, now).1;
    } else {
      assert fs[1..] == [] && MarkAll(one, [], e, now).1;
    }
  }
}
