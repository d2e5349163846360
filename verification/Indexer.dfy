/** The payment indexer (relay/indexer.js) feeding the order ledger (relay/billing.js).
    Chunks overlap, RPC nodes may miss logs or fail, the process may die at any await, and
    the cursor file is flushed late; a payment must still be delivered once per process
    and counted once for ever. */
module Indexer {
  import opened Common

  datatype Key = Key(tx: nat, index: nat)
  datatype Log = Log(key: Key, ref: nat, amount: nat, block: nat)

  /** One answer to eth_getLogs per call, or a transport error. */
  type Rpc = (nat, nat, nat) -> Option<seq<Log>>

  ghost predicate Answers(rpc: Rpc) { forall k: nat, lo: nat, hi: nat :: rpc(k, lo, hi).Some? }

  /** How many more awaits the process lives through; none is named when it never stops. */
  type Awaits = Option<nat>

  predicate Stops(left: Awaits, n: nat) { left.Some? && left.value <= n }

  function Spend(left: Awaits, n: nat): Awaits {
    if left.None? then None else if left.value < n then Some(0) else Some(left.value - n)
  }

  /** A log is named by its transaction hash and index, and confirmed logs do not move. */
  ghost predicate OneLogPerKey(chain: set<Log>) {
    forall a, b | a in chain && b in chain && a.key == b.key :: a == b
  }

  /** Every answer holds every log of the asked range. */
  ghost predicate Full(rpc: Rpc, chain: set<Log>) {
    forall k: nat, lo: nat, hi: nat, l | rpc(k, lo, hi).Some? && l in chain && lo <= l.block <= hi ::
      l in rpc(k, lo, hi).value
  }

  ghost predicate Honest(rpc: Rpc, chain: set<Log>) {
    forall k: nat, lo: nat, hi: nat, l | rpc(k, lo, hi).Some? && l in rpc(k, lo, hi).value ::
      l in chain && lo <= l.block <= hi
  }

  predicate DistinctKeys(ls: seq<Log>) {
    forall i, j | 0 <= i < j < |ls| :: ls[i].key != ls[j].key
  }

  /** total6: the fold over the order's payment list. */
  function Sum(ls: seq<Log>): nat {
    if ls == [] then 0 else Sum(ls[..|ls| - 1]) + ls[|ls| - 1].amount
  }

  /** The overlap start for a cursor, the clamp of a long gap, and where a poll begins. */
  function OverlapStart(from: nat, rescan: nat): nat { if from > rescan then from - rescan else 0 }

  function Clamp(from: nat, safe: nat, maxCatchup: nat): nat {
    if safe > from + maxCatchup then safe - maxCatchup else from
  }

  /** The blocks lo, lo + 1, ... below hi. */
  function Blocks(lo: nat, hi: nat): (r: set<nat>)
    ensures forall b: nat :: b in r <==> lo <= b < hi
  {
    if hi <= lo then {} else Blocks(lo, hi - 1) + {hi - 1}
  }

  lemma {:induction false} BlocksJoin(a: nat, b: nat, c: nat)
    requires a <= c && b <= c
    ensures Blocks(a, c) + Blocks(b, c) == Blocks(if a < b then a else b, c)
  {}

  lemma BlocksReach(first: nat, cursor: nat, lo: nat, hi: nat, covered: set<nat>)
    requires Blocks(first, cursor) <= covered && lo <= cursor <= hi
    ensures Blocks(first, hi) <= covered + Blocks(lo, hi)
  {}

  lemma {:induction false} BlocksGrow(lo: nat, a: nat, b: nat)
    requires a <= b
    ensures Blocks(lo, a) <= Blocks(lo, b)
  {}

  /** One order's list holds each log of the chain once, and its total is their sum. */
  ghost predicate ListOk(ps: seq<Log>, total: nat, r: nat, chain: set<Log>) {
    DistinctKeys(ps) && total == Sum(ps) && forall l | l in ps :: l in chain && l.ref == r
  }

  ghost predicate BookOk(payments: map<nat, seq<Log>>, total6: map<nat, nat>, chain: set<Log>) {
    payments.Keys == total6.Keys && forall r | r in payments :: ListOk(payments[r], total6[r], r, chain)
  }

  predicate InBook(payments: map<nat, seq<Log>>, reviews: seq<Log>, l: Log) {
    (l.ref in payments && l in payments[l.ref]) || l in reviews
  }

  lemma PushKeepsList(ps: seq<Log>, total: nat, l: Log, chain: set<Log>)
    requires ListOk(ps, total, l.ref, chain) && l in chain
    requires forall j | 0 <= j < |ps| :: ps[j].key != l.key
    ensures ListOk(ps + [l], Sum(ps + [l]), l.ref, chain) && Sum(ps + [l]) == total + l.amount
  {
    assert (ps + [l])[..|ps|] == ps;
  }

  /** Nothing the book held is forgotten. */
  ghost predicate Grows(p0: map<nat, seq<Log>>, r0: seq<Log>, p1: map<nat, seq<Log>>, r1: seq<Log>) {
    p0.Keys == p1.Keys && forall l :: InBook(p0, r0, l) ==> InBook(p1, r1, l)
  }

  lemma GrowsNot(p: map<nat, seq<Log>>, r: seq<Log>)
    ensures Grows(p, r, p, r)
  {}

  lemma GrowsOn(p0: map<nat, seq<Log>>, r0: seq<Log>, p1: map<nat, seq<Log>>, r1: seq<Log>, p2: map<nat, seq<Log>>, r2: seq<Log>)
    requires Grows(p0, r0, p1, r1) && Grows(p1, r1, p2, r2)
    ensures Grows(p0, r0, p2, r2)
  {
    hide InBook;
  }

  lemma PaidKeepsBook(payments: map<nat, seq<Log>>, total6: map<nat, nat>, reviews: seq<Log>, l: Log, chain: set<Log>)
    requires BookOk(payments, total6, chain) && OneLogPerKey(chain) && l in chain && l.ref in payments
    requires forall j | 0 <= j < |payments[l.ref]| :: payments[l.ref][j].key != l.key
    ensures l !in payments[l.ref] && Sum(payments[l.ref] + [l]) == total6[l.ref] + l.amount
    ensures var grown := payments[l.ref := payments[l.ref] + [l]];
            BookOk(grown, total6[l.ref := total6[l.ref] + l.amount], chain)
            && Grows(payments, reviews, grown, reviews) && InBook(grown, reviews, l)
  {
    var ps := payments[l.ref];
    assert ListOk(ps, total6[l.ref], l.ref, chain);
    PushKeepsList(ps, total6[l.ref], l, chain);
    var grown, totals := payments[l.ref := ps + [l]], total6[l.ref := total6[l.ref] + l.amount];
    hide ListOk, OneLogPerKey, Sum;
    forall r | r in grown ensures ListOk(grown[r], totals[r], r, chain) {
      assert r != l.ref ==> ListOk(payments[r], total6[r], r, chain);
    }
    PaidGrows(payments, reviews, l);
  }

  lemma PaidGrows(payments: map<nat, seq<Log>>, reviews: seq<Log>, l: Log)
    requires l.ref in payments
    ensures var grown := payments[l.ref := payments[l.ref] + [l]];
            Grows(payments, reviews, grown, reviews) && InBook(grown, reviews, l)
  {}

  lemma BookKeys(payments: map<nat, seq<Log>>, total6: map<nat, nat>, chain: set<Log>)
    requires BookOk(payments, total6, chain)
    ensures payments.Keys == total6.Keys
  {}

  lemma ReviewGrows(payments: map<nat, seq<Log>>, reviews: seq<Log>, l: Log)
    ensures Grows(payments, reviews, payments, reviews + [l]) && InBook(payments, reviews + [l], l)
  {}

  lemma FoundInBook(payments: map<nat, seq<Log>>, total6: map<nat, nat>, reviews: seq<Log>, l: Log, chain: set<Log>, i: nat)
    requires BookOk(payments, total6, chain) && OneLogPerKey(chain) && l in chain && l.ref in payments
    requires i < |payments[l.ref]| && payments[l.ref][i].key == l.key
    ensures l in payments[l.ref] && InBook(payments, reviews, l) && Grows(payments, reviews, payments, reviews)
  {
    assert ListOk(payments[l.ref], total6[l.ref], l.ref, chain) && payments[l.ref][i] in payments[l.ref];
  }

  lemma MarksStay(seen: map<Key, nat>, p0: map<nat, seq<Log>>, r0: seq<Log>, p1: map<nat, seq<Log>>, r1: seq<Log>,
                  chain: set<Log>, l: Log)
    requires MarksOk(seen, p0, r0, chain) && Grows(p0, r0, p1, r1) && l in chain && InBook(p1, r1, l)
    ensures MarksOk(seen[l.key := l.block], p1, r1, chain)
  {
    forall k | k in seen && k != l.key
      ensures exists m :: m in chain && m.key == k && m.block == seen[k] && InBook(p1, r1, m)
    {
      var m :| m in chain && m.key == k && m.block == seen[k] && InBook(p0, r0, m);
    }
  }

  /** A mark stands for a chain log already in the book. */
  ghost predicate MarksOk(seen: map<Key, nat>, payments: map<nat, seq<Log>>, reviews: seq<Log>, chain: set<Log>) {
    forall k | k in seen :: exists l :: l in chain && l.key == k && l.block == seen[k] && InBook(payments, reviews, l)
  }

  /** No key was delivered twice, and a delivered key is marked or too old to return. */
  ghost predicate OnceOk(delivered: seq<Log>, seen: map<Key, nat>, low: nat) {
    DistinctKeys(delivered) && forall l | l in delivered :: l.key in seen || l.block < low
  }

  lemma DeliveryKeepsOnce(delivered: seq<Log>, seen: map<Key, nat>, low: nat, chain: set<Log>, l: Log)
    requires OnceOk(delivered, seen, low) && OneLogPerKey(chain) && (forall m | m in delivered :: m in chain)
    requires l in chain && l.block >= low && l.key !in seen
    ensures OnceOk(delivered + [l], seen[l.key := l.block], low)
  {
    forall j | 0 <= j < |delivered| ensures delivered[j].key != l.key {
      assert delivered[j] in delivered;
    }
  }

  /** `payments.some((p) => p.txHash === txHash && p.logIndex === logIndex)` */
  method Find(ps: seq<Log>, key: Key) returns (at: Option<nat>)
    ensures at.Some? ==> at.value < |ps| && ps[at.value].key == key
    ensures at.None? ==> forall j | 0 <= j < |ps| :: ps[j].key != key
  {
    for i := 0 to |ps|
      invariant forall j | 0 <= j < i :: ps[j].key != key
    {
      if ps[i].key == key { return Some(i); }
    }
    return None;
  }

  lemma {:induction false} SumRemove(qs: seq<Log>, j: nat)
    requires j < |qs|
    ensures Sum(qs) == Sum(qs[..j] + qs[j + 1..]) + qs[j].amount
  {
    var n := |qs| - 1;
    if j == n {
      assert qs[..j] + qs[j + 1..] == qs[..n];
    } else {
      SumRemove(qs[..n], j);
      var rest := qs[..j] + qs[j + 1..];
      assert rest[..n - 1] == qs[..n][..j] + qs[..n][j + 1..];
    }
  }

  /** The total depends only on which logs were recorded, not on how often they came back
      or in what order: two lists of the same logs, each once, have one sum. */
  lemma {:induction false} TotalCountsEachLogOnce(ps: seq<Log>, qs: seq<Log>)
    requires DistinctKeys(ps) && DistinctKeys(qs) && forall l :: l in ps <==> l in qs
    ensures Sum(ps) == Sum(qs) && |ps| == |qs|
  {
    assert |qs| == 0 || qs[0] in qs;
    if ps != [] {
      var n := |ps| - 1;
      assert ps[n] in ps;
      var j :| 0 <= j < |qs| && qs[j] == ps[n];
      SumRemove(qs, j);
      WithoutOne(ps, qs, j);
      TotalCountsEachLogOnce(ps[..n], qs[..j] + qs[j + 1..]);
    }
  }

  lemma WithoutOne(ps: seq<Log>, qs: seq<Log>, j: nat)
    requires DistinctKeys(ps) && DistinctKeys(qs) && forall l :: l in ps <==> l in qs
    requires ps != [] && j < |qs| && qs[j] == ps[|ps| - 1]
    ensures var p, q := ps[..|ps| - 1], qs[..j] + qs[j + 1..];
            DistinctKeys(p) && DistinctKeys(q) && forall l :: l in p <==> l in q
  {
    var n, rest := |ps| - 1, qs[..j] + qs[j + 1..];
    forall l ensures l in ps[..n] <==> l in rest {
      if l in ps[..n] {
        assert l in ps && l.key != ps[n].key;
        var k :| 0 <= k < |qs| && qs[k] == l;
        assert l == if k < j then rest[k] else rest[k - 1];
      }
      if l in rest {
        assert l in qs && l != qs[j];
      }
    }
  }

  /** Every log of the covered blocks came back. */
  ghost predicate Answered(chain: set<Log>, covered: set<nat>, returned: set<Log>) {
    forall l | l in chain && l.block in covered :: l in returned
  }

  ghost predicate AllInBook(ls: set<Log>, payments: map<nat, seq<Log>>, reviews: seq<Log>) {
    forall l | l in ls :: InBook(payments, reviews, l)
  }

  /** The answer holds every log of the asked range. */
  ghost predicate AllBack(chain: set<Log>, lo: nat, hi: nat, logs: seq<Log>) {
    forall l | l in chain && lo <= l.block <= hi :: l in logs
  }

  lemma AnswersHere(rpc: Rpc, k: nat, lo: nat, hi: nat)
    ensures Answers(rpc) ==> rpc(k, lo, hi).Some?
  {}

  lemma HonestAnswer(rpc: Rpc, chain: set<Log>, k: nat, lo: nat, hi: nat)
    requires Honest(rpc, chain) && rpc(k, lo, hi).Some?
    ensures forall l | l in rpc(k, lo, hi).value :: l in chain && l.block >= lo
    ensures Full(rpc, chain) ==> AllBack(chain, lo, hi, rpc(k, lo, hi).value)
  {}

  lemma AnsweredToo(chain: set<Log>, covered: set<nat>, returned: set<Log>, lo: nat, hi: nat, logs: seq<Log>)
    requires Answered(chain, covered, returned) && AllBack(chain, lo, hi, logs)
    ensures Answered(chain, covered + Blocks(lo, hi + 1), returned + (set l | l in logs))
  {}

  lemma AllGrow(ls: set<Log>, p0: map<nat, seq<Log>>, r0: seq<Log>, p1: map<nat, seq<Log>>, r1: seq<Log>)
    requires AllInBook(ls, p0, r0) && Grows(p0, r0, p1, r1)
    ensures AllInBook(ls, p1, r1)
  {
    hide InBook;
  }

  lemma AllInBookToo(ls: set<Log>, logs: seq<Log>, payments: map<nat, seq<Log>>, reviews: seq<Log>)
    requires AllInBook(ls, payments, reviews) && forall l | l in logs :: InBook(payments, reviews, l)
    ensures AllInBook(ls + (set l | l in logs), payments, reviews)
  {
    hide InBook;
  }

  class Indexer {
    const confirmations: nat
    const rescan: nat
    const chunk: nat
    const maxCatchup: nat
    ghost const chain: set<Log>

    var cursor: Option<nat>              // cursorStore.data.fromBlock
    var onDisk: Option<nat>              // what the last flush of it wrote
    var seen: map<Key, nat>
    var payments: map<nat, seq<Log>>     // per known order reference, durable
    var total6: map<nat, nat>
    var reviews: seq<Log>                // payments no order claims, durable

    ghost var delivered: seq<Log>        // handler calls of this process
    ghost var first: Option<nat>         // the first cursor this cursor descends from
    ghost var covered: set<nat>          // blocks of finished windows
    ghost var returned: set<Log>         // logs answered in finished windows
    ghost var low: nat                   // overlap start of the latest window
    ghost var complete: bool             // every finished window was answered in full
    ghost var clamped: bool              // some poll skipped blocks

    ghost predicate CursorOk()
      reads this
    {
      && (cursor.Some? ==> first.Some? && first.value <= cursor.value)
      && (onDisk.Some? ==> cursor.Some? && first.value <= onDisk.value <= cursor.value)
      && (cursor.Some? && !clamped ==> Blocks(first.value, cursor.value) <= covered)
      && (complete ==> Answered(chain, covered, returned))
      && AllInBook(returned, payments, reviews)
    }

    ghost predicate SeenOk()
      reads this
    {
      && MarksOk(seen, payments, reviews, chain)
      && (forall l | l in delivered :: l in chain)
      && (!clamped ==> OnceOk(delivered, seen, low)
                       && (if cursor.Some? then low <= OverlapStart(cursor.value, rescan) else low == 0))
    }

    ghost predicate Valid()
      reads this
    {
      OneLogPerKey(chain) && BookOk(payments, total6, chain) && CursorOk() && SeenOk()
    }

    constructor (confirmations: nat, rescan: nat, chunk: nat, maxCatchup: nat, ghost chain: set<Log>)
      requires OneLogPerKey(chain)
      ensures Valid() && this.rescan == rescan && this.maxCatchup == maxCatchup && this.chain == chain
      ensures payments == map[] && cursor == None && onDisk == None
    {
      this.confirmations, this.rescan, this.chunk, this.maxCatchup := confirmations, rescan, chunk, maxCatchup;
      this.chain := chain;
      cursor, onDisk, seen := None, None, map[];
      payments, total6, reviews := map[], map[], [];
      delivered, first, covered, returned, low := [], None, {}, {}, 0;
      complete, clamped := true, false;
    }

    /** A new order starts an empty payment list. */
    method AddOrder(ref: nat)
      requires Valid() && ref !in payments
      modifies this`payments, this`total6
      ensures Valid() && payments == old(payments)[ref := []] && total6 == old(total6)[ref := 0]
    {
      payments := payments[ref := []];
      total6 := total6[ref := 0];
      assert forall l :: InBook(old(payments), reviews, l) ==> InBook(payments, reviews, l);
    }

    /** handleConfirmedPayment up to its first save: the order's own list decides whether
        this log was counted before. */
    method OnPayment(l: Log)
      requires BookOk(payments, total6, chain) && OneLogPerKey(chain) && l in chain
      modifies this`payments, this`total6, this`reviews
      ensures BookOk(payments, total6, chain) && InBook(payments, reviews, l)
      ensures Grows(old(payments), old(reviews), payments, reviews)
      ensures l.ref !in old(payments) ==> payments == old(payments) && reviews == old(reviews) + [l]
      ensures l.ref in old(payments) ==>
                reviews == old(reviews)
                && payments == old(payments)[l.ref := if l in old(payments)[l.ref] then old(payments)[l.ref]
                                                      else old(payments)[l.ref] + [l]]
    {
      if l.ref !in payments {
        hide *;
        ReviewGrows(payments, reviews, l);
        reviews := reviews + [l];
        return;
      }
      var at := Find(payments[l.ref], l.key);
      if at.Some? {
        hide *;
        FoundInBook(payments, total6, reviews, l, chain, at.value);
      } else {
        PushPayment(l);
      }
    }

    /** `payments.push(...)`, the total refolded, the order saved. */
    method PushPayment(l: Log)
      requires BookOk(payments, total6, chain) && OneLogPerKey(chain) && l in chain && l.ref in payments
      requires forall j | 0 <= j < |payments[l.ref]| :: payments[l.ref][j].key != l.key
      modifies this`payments, this`total6
      ensures l !in old(payments)[l.ref] && l.ref in old(total6)
      ensures BookOk(payments, total6, chain) && InBook(payments, reviews, l)
      ensures Grows(old(payments), reviews, payments, reviews)
      ensures payments == old(payments)[l.ref := old(payments)[l.ref] + [l]]
      ensures total6 == old(total6)[l.ref := old(total6)[l.ref] + l.amount]
    {
      BookKeys(payments, total6, chain);
      hide *;
      PaidKeepsBook(payments, total6, reviews, l, chain);
      var list := payments[l.ref] + [l];
      var total := Sum(list);
      assert total == total6[l.ref] + l.amount;
      payments, total6 := payments[l.ref := list], total6[l.ref := total];
    }

    /** The 2-second timer, or a clean exit. */
    method FlushCursor()
      requires Valid()
      modifies this`onDisk
      ensures Valid() && onDisk == cursor
    {
      onDisk := cursor;
    }

    /** The process dies: memory falls back to the flushed cursor. */
    method Crash()
      requires Valid()
      modifies this`cursor, this`seen, this`delivered, this`low, this`first
      ensures Valid() && cursor == onDisk && delivered == [] && seen == map[]
      ensures onDisk.Some? ==> first == old(first)
    {
      cursor, seen, delivered, low := onDisk, map[], [], 0;
      if onDisk.None? { first := None; }
    }

    /** One poll; `tip` and `rpc` are what the nodes answer. It finishes unless the process stops
        in it or a node fails. */
    method Poll(tip: nat, rpc: Rpc, budget: Awaits) returns (finished: bool)
      requires Valid() && Honest(rpc, chain)
      modifies this
      ensures Valid()
      ensures onDisk == old(onDisk)
      ensures Grows(old(payments), old(reviews), payments, reviews)
      ensures old(delivered) <= delivered
      ensures old(cursor).Some? ==> cursor.Some? && cursor.value >= old(cursor).value && first == old(first)
      ensures old(complete) && Full(rpc, chain) ==> complete
      // a finished poll covers exactly the blocks from its overlap start up to the safe tip
      ensures finished && old(cursor).Some? && old(cursor).value + confirmations <= tip ==>
                var safe := tip - confirmations;
                var lo := OverlapStart(Clamp(old(cursor).value, safe, maxCatchup), rescan);
                cursor == Some(safe + 1) && covered == old(covered) + Blocks(lo, safe + 1)
      ensures old(cursor).Some? && confirmations <= tip ==>
                var safe := tip - confirmations;
                covered <= old(covered) + Blocks(OverlapStart(Clamp(old(cursor).value, safe, maxCatchup), rescan), safe + 1)
      ensures budget.None? && Answers(rpc) && confirmations <= tip ==> finished
      // the first run ever only notes the tip
      ensures old(cursor).None? && confirmations <= tip ==>
                cursor == first == Some(tip - confirmations + 1)
                && covered == old(covered) && payments == old(payments) && reviews == old(reviews)
      ensures old(cursor).Some? && !old(clamped) && tip <= old(cursor).value + maxCatchup + confirmations ==> !clamped
    {
      hide Valid, Honest, Full, Grows, Blocks, Answers;
      GrowsNot(payments, reviews);
      finished := false;
      if tip < confirmations { return; }
      var from := Begin(tip - confirmations);
      finished := ScanAll(from, tip - confirmations, rpc, budget);
    }

    /** The scan loop of a poll. */
    method ScanAll(start: nat, safe: nat, rpc: Rpc, budget: Awaits) returns (finished: bool)
      requires Valid() && Honest(rpc, chain) && cursor.Some? && cursor.value <= start
      requires !clamped ==> start == cursor.value
      modifies this
      ensures Valid() && first == old(first) && onDisk == old(onDisk) && clamped == old(clamped)
      ensures Grows(old(payments), old(reviews), payments, reviews) && old(delivered) <= delivered
      ensures cursor.Some? && cursor.value >= old(cursor).value
      ensures old(complete) && Full(rpc, chain) ==> complete
      ensures start <= safe ==> covered <= old(covered) + Blocks(OverlapStart(start, rescan), safe + 1)
      ensures budget.None? && Answers(rpc) ==> finished
      ensures start <= safe && finished ==>
                cursor == Some(safe + 1) && covered == old(covered) + Blocks(OverlapStart(start, rescan), safe + 1)
      ensures start > safe ==>
                cursor == old(cursor) && covered == old(covered) && payments == old(payments) && reviews == old(reviews)
    {
      hide Valid, Honest, Full, Grows, Blocks, Answers;
      GrowsNot(payments, reviews);
      finished := false;
      var from, calls: nat := start, 0;
      var left := budget;
      ghost var lo := OverlapStart(start, rescan);
      while from <= safe
        invariant Valid() && first == old(first) && onDisk == old(onDisk) && clamped == old(clamped)
        invariant cursor.Some? && cursor.value >= old(cursor).value && start <= from
        invariant from == cursor.value || (from == start && cursor == old(cursor))
        invariant Grows(old(payments), old(reviews), payments, reviews) && old(delivered) <= delivered
        invariant old(complete) && Full(rpc, chain) ==> complete
        invariant budget.None? ==> left.None?
        invariant from == start ==> covered == old(covered) && payments == old(payments) && reviews == old(reviews)
        invariant start > safe ==> from == start && cursor == old(cursor)
        invariant from != start ==> from <= safe + 1 && covered == old(covered) + Blocks(lo, from)
        invariant start <= safe ==> covered <= old(covered) + Blocks(lo, safe + 1)
        decreases safe + 1 - from
      {
        ghost var p, r := payments, reviews;
        var next, rest := ScanWindow(from, safe, rpc, calls, left);
        GrowsOn(old(payments), old(reviews), p, r, payments, reviews);
        if next.None? { return; }
        BlocksJoin(lo, OverlapStart(from, rescan), next.value);
        BlocksGrow(lo, next.value, safe + 1);
        from, calls, left := next.value, calls + 1, rest;
      }
      finished := true;
    }

    /** The block a poll scans from: the saved cursor, the confirmed tip on the first run
        ever, and no further back than the clamp. */
    method Begin(safe: nat) returns (from: nat)
      requires Valid()
      modifies this`cursor, this`first, this`clamped
      ensures Valid() && cursor.Some? && from == Clamp(cursor.value, safe, maxCatchup)
      ensures old(cursor).Some? ==> cursor == old(cursor) && first == old(first)
      ensures old(cursor).None? ==> cursor == first == Some(safe + 1)
      ensures clamped == (old(clamped) || from != cursor.value)
    {
      if cursor.None? {
        cursor := Some(safe + 1);
        first := cursor;
      }
      from := Clamp(cursor.value, safe, maxCatchup);
      clamped := clamped || from != cursor.value;
    }

    /** One turn of the scan loop: the block to continue from, or nothing when the node
        fails or the process stops. `left` awaits remain. */
    method ScanWindow(from: nat, safe: nat, rpc: Rpc, call: nat, left: Awaits)
      returns (next: Option<nat>, rest: Awaits)
      requires Valid() && Honest(rpc, chain) && from <= safe && cursor.Some? && cursor.value <= from
      requires !clamped ==> from == cursor.value
      modifies this
      ensures Valid() && first == old(first) && onDisk == old(onDisk) && clamped == old(clamped)
      ensures old(delivered) <= delivered
      ensures Grows(old(payments), old(reviews), payments, reviews)
      ensures left.None? ==> rest.None? && (Answers(rpc) ==> next.Some?)
      ensures next.None? ==> cursor == old(cursor) && covered == old(covered) && complete == old(complete)
      ensures next.Some? ==> from < next.value <= safe + 1 && cursor == next
                             && covered == old(covered) + Blocks(OverlapStart(from, rescan), next.value)
      ensures old(complete) && Full(rpc, chain) ==> complete
    {
      hide Valid, Grows, Blocks, Honest, Full, Answers;
      var scanFrom := OverlapStart(from, rescan);
      var to := if safe > scanFrom + chunk then scanFrom + chunk else safe;
      if to < from { to := from; }
      Prune(scanFrom);
      rest := Spend(left, 1);
      var answer := rpc(call, scanFrom, to);
      AnswersHere(rpc, call, scanFrom, to);
      GrowsNot(payments, reviews);
      if Stops(left, 0) || answer.None? { return None, rest; }
      HonestAnswer(rpc, chain, call, scanFrom, to);
      var done := RecordWindow(scanFrom, to, answer.value, rest);
      next, rest := if done then Some(to + 1) else None, Spend(rest, |answer.value|);
    }

    /** The window's logs through the handler, and the cursor past it. */
    method RecordWindow(scanFrom: nat, to: nat, logs: seq<Log>, left: Awaits) returns (done: bool)
      requires Valid() && cursor.Some? && cursor.value <= to + 1 && low == scanFrom <= to
      requires !clamped ==> scanFrom == OverlapStart(cursor.value, rescan)
      requires forall l | l in logs :: l in chain && l.block >= scanFrom
      modifies this
      ensures Valid() && first == old(first) && onDisk == old(onDisk) && clamped == old(clamped)
      ensures old(delivered) <= delivered && Grows(old(payments), old(reviews), payments, reviews)
      ensures left.None? ==> done
      ensures !done ==> cursor == old(cursor) && covered == old(covered) && complete == old(complete)
      ensures done ==> cursor == Some(to + 1) && covered == old(covered) + Blocks(scanFrom, to + 1)
      ensures old(complete) && AllBack(chain, scanFrom, to, logs) ==> complete
    {
      hide Valid, Grows, Blocks, AllBack;
      done := Deliver(logs, left);
      if done { CloseWindow(scanFrom, to, logs); }
    }

    /** Forget marks the coming windows cannot meet again. */
    method Prune(scanFrom: nat)
      requires Valid() && cursor.Some?
      requires !clamped ==> scanFrom == OverlapStart(cursor.value, rescan)
      modifies this`seen, this`low
      ensures Valid() && low == scanFrom
    {
      seen := map k | k in seen && seen[k] >= scanFrom :: seen[k];
      low := scanFrom;
      forall l | l in delivered && !clamped ensures l.key in seen || l.block < low {
        assert l.key in old(seen) || l.block < old(low);
        if l.key in old(seen) && l.key !in seen {
          var m :| m in chain && m.key == l.key && m.block == old(seen)[l.key];
          assert m == l;
        }
      }
    }

    /** One log through the dedup mark into the handler. */
    method DeliverOne(l: Log)
      requires Valid() && l in chain && l.block >= low && l.key !in seen
      modifies this`seen, this`delivered, this`payments, this`total6, this`reviews
      ensures Valid() && Grows(old(payments), old(reviews), payments, reviews)
      ensures delivered == old(delivered) + [l] && seen == old(seen)[l.key := l.block] && InBook(payments, reviews, l)
    {
      hide BookOk, MarksOk, OnceOk, InBook, AllInBook;
      if !clamped { DeliveryKeepsOnce(delivered, seen, low, chain, l); }
      ghost var p0, r0, s0 := payments, reviews, seen;
      OnPayment(l);
      MarksStay(s0, p0, r0, payments, reviews, chain, l);
      AllGrow(returned, p0, r0, payments, reviews);
      seen := seen[l.key := l.block];
      delivered := delivered + [l];
    }

    /** Hand every unseen log to the handler; false when the process stops in between. */
    method Deliver(logs: seq<Log>, left: Awaits) returns (done: bool)
      requires Valid() && forall l | l in logs :: l in chain && l.block >= low
      modifies this`seen, this`delivered, this`payments, this`total6, this`reviews
      ensures Valid()
      ensures old(delivered) <= delivered
      ensures Grows(old(payments), old(reviews), payments, reviews)
      ensures done ==> forall l | l in logs :: InBook(payments, reviews, l)
      ensures left.None? ==> done
    {
      done := false;
      for i := 0 to |logs|
        invariant Valid() && old(delivered) <= delivered
        invariant Grows(old(payments), old(reviews), payments, reviews)
        invariant forall j | 0 <= j < i :: InBook(payments, reviews, logs[j])
      {
        assert logs[i] in logs;
        if logs[i].key !in seen {
          if Stops(left, i) { return; }
          DeliverOne(logs[i]);
        }
      }
      done := true;
    }

    /** The window is finished: advance and save the cursor past it. */
    method CloseWindow(scanFrom: nat, to: nat, logs: seq<Log>)
      requires Valid() && cursor.Some? && cursor.value <= to + 1 && low == scanFrom
      requires scanFrom <= to
      requires !clamped ==> scanFrom <= cursor.value && low <= OverlapStart(cursor.value, rescan)
      requires forall l | l in logs :: InBook(payments, reviews, l)
      modifies this`cursor, this`covered, this`returned, this`complete
      ensures Valid() && cursor == Some(to + 1)
      ensures covered == old(covered) + Blocks(scanFrom, to + 1)
      ensures old(complete) && AllBack(chain, scanFrom, to, logs) ==> complete
    {
      hide BookOk, MarksOk, OnceOk, InBook, Answered, AllInBook, AllBack, OneLogPerKey, Blocks;
      ghost var all := AllBack(chain, scanFrom, to, logs);
      if complete && all { AnsweredToo(chain, covered, returned, scanFrom, to, logs); }
      AllInBookToo(returned, logs, payments, reviews);
      if !clamped { BlocksReach(first.value, cursor.value, scanFrom, to + 1, covered); }
      complete := complete && all;
      covered := covered + Blocks(scanFrom, to + 1);
      returned := returned + set l | l in logs;
      cursor := Some(to + 1);
    }
  }

  // --- main results -------------------------------------------------------------------------------

  /** In every reachable state, crashes included: once nothing was clamped away and every
      finished window was answered in full, each log from the first cursor up to the saved
      one is in the book, and no log was handed over twice by this process. */
  lemma NothingBeforeTheCursorIsLost(ix: Indexer, l: Log)
    requires ix.Valid() && ix.complete && !ix.clamped
    requires l in ix.chain && ix.onDisk.Some? && ix.first.value <= l.block < ix.onDisk.value
    ensures InBook(ix.payments, ix.reviews, l)
    ensures DistinctKeys(ix.delivered)
  {
    assert l.block in ix.covered;
    assert l in ix.returned;
  }

  /** The windows of one finished poll reach back to the saved cursor exactly when the gap
      is within the clamp plus one overlap; a longer gap silently skips the blocks between. */
  lemma ClampSkipsExactly(from: nat, safe: nat, maxCatchup: nat, rescan: nat)
    requires from <= safe
    ensures Blocks(from, safe + 1) <= Blocks(OverlapStart(Clamp(from, safe, maxCatchup), rescan), safe + 1)
            <==> safe <= from + maxCatchup + rescan
  {
    var lo := OverlapStart(Clamp(from, safe, maxCatchup), rescan);
    assert from in Blocks(from, safe + 1);
    assert from in Blocks(lo, safe + 1) <==> lo <= from;
  }

  /** A crash before the first cursor was ever flushed, whatever ran until then, leaves none.
      The next poll records nothing and starts at the tip of that moment, and the windows of
      the poll after it begin one overlap below there (or where the clamp puts it): a block
      is scanned after that exactly if the lost process had scanned it, or it is from there on. */
  method FirstCursorLost(ix: Indexer, tip: nat, rpc: Rpc, budget: Awaits, tip2: nat, rpc2: Rpc, budget2: Awaits)
    returns (done: bool)
    requires ix.Valid() && Honest(rpc, ix.chain) && Honest(rpc2, ix.chain) && ix.onDisk.None?
    requires ix.confirmations <= tip < tip2
    modifies ix
    ensures ix.Valid() && ix.first == Some(tip - ix.confirmations + 1)
    ensures var safe2 := tip2 - ix.confirmations;
            var lo := OverlapStart(Clamp(ix.first.value, safe2, ix.maxCatchup), ix.rescan);
            forall b: nat ::
              && (b in ix.covered ==> b in old(ix.covered) || lo <= b <= safe2)
              && (done ==> (b in ix.covered <==> b in old(ix.covered) || lo <= b <= safe2))
  {
    ix.Crash();
    var noted := ix.Poll(tip, rpc, budget);
    done := ix.Poll(tip2, rpc2, budget2);
  }
}
