/** One issuance for a (name, key) over the CA slots (relay/certs.js): the order already
    placed is resumed first, then the slots are walked, then the ones that timed out get a
    second chance. What each CA answers, and which slots are cooling or paced at the time,
    is given from outside, since every other order on the relay shares the slots. */
module AcmeOrders {
  import opened Common

  /** A finalized order the CA is still working on. */
  datatype Rec = Rec(ca: nat, at: int)

  const ORDER_TTL_MS := 3600000

  /** How a CA step throws: a refusal of the name, a failing CA, or a disowned account. */
  datatype Err = Refused | CaDown | Lost(caLevel: bool)

  predicate CaLevel(e: Err) { e.CaDown? || (e.Lost? && e.caLevel) }

  datatype End = Issued | StillPending | Fails(e: Err)

  /** One run of acmeIssueViaOnce: it fails before the order is under way (`asked`: newOrder
      was posted), fails between there and the finalize, or gets as far as a record. */
  datatype ViaRun = Early(e: Err, asked: bool) | Late(e: Err) | Finalized(end: End, at: int)

  /** One run of acmeResume: no account to poll with, or an answer about the order. */
  datatype ResumeRun = NoAccount | Polled(end: End)

  /** A slot's part of the walk: its pace verdict and its run, plus the run repeated on a
      fresh account should the first lose its own. */
  datatype Attempt = Attempt(ca: nat, paced: bool, first: ViaRun, again: ViaRun)

  /** The call so far. `asks` says of every newOrder whether a record was held just then. */
  datatype Call = Call(rec: Option<Rec>, asks: seq<bool>, reached: bool,
                       cooled: seq<nat>, proven: bool, tried: bool, end: Option<End>)

  function Asked(c: Call, r: ViaRun): Call {
    if r.Early? && !r.asked then c else c.(asks := c.asks + [c.rec.Some?])
  }

  function EndOf(r: ViaRun): End {
    match r
    case Early(e, _) => Fails(e)
    case Late(e) => Fails(e)
    case Finalized(end, _) => end
  }

  /** acmeIssueViaOnce: past the challenge set-up its `finally` drops whatever record the key
      has, unless the order it just finalized is still pending. */
  function ViaOnce(c: Call, ca: nat, r: ViaRun): Call {
    match r
    case Early(_, _) => Asked(c, r)
    case Late(_) => Asked(c, r).(rec := None, reached := true)
    case Finalized(end, at) => Asked(c, r).(rec := if end.StillPending? then Some(Rec(ca, at)) else None, reached := true)
  }

  /** withAccount around it: one more run when the account turned out to be gone. */
  function Via(c: Call, a: Attempt): (r: (Call, End))
    ensures r.0.end == c.end && r.0.cooled == c.cooled && r.0.proven == c.proven
  {
    var c1 := ViaOnce(c, a.ca, a.first);
    if EndOf(a.first).Fails? && EndOf(a.first).e.Lost? then (ViaOnce(c1, a.ca, a.again), EndOf(a.again))
    else (c1, EndOf(a.first))
  }

  /** acmeResume: the record survives a throw before the poll, and a pending order. */
  function ResumeOnce(rec: Option<Rec>, r: ResumeRun): Option<Rec> {
    match r
    case NoAccount => rec
    case Polled(end) => if end.StillPending? then rec else None
  }

  function ResumeEnd(r: ResumeRun): End { if r.NoAccount? then Fails(CaDown) else r.end }

  function Retries(r: ResumeRun): bool { r.Polled? && r.end.Fails? && r.end.e.Lost? }

  function Resume(rec: Option<Rec>, first: ResumeRun, again: ResumeRun): (Option<Rec>, End) {
    var rec1 := ResumeOnce(rec, first);
    if Retries(first) then (ResumeOnce(rec1, again), ResumeEnd(again)) else (rec1, ResumeEnd(first))
  }

  /** Book an attempt's end: an issue or a pending order ends the call, anything else goes on. */
  function Booked(c: Call, ca: nat, end: End): Call {
    match end
    case Issued => c.(end := Some(Issued))
    case StillPending => c.(end := Some(StillPending))
    case Fails(e) => if CaLevel(e) then c.(cooled := c.cooled + [ca]) else c.(proven := true)
  }

  function Walk(c: Call, attempts: seq<Attempt>): Call
    decreases |attempts|
  {
    if attempts == [] || c.end.Some? then c
    else if attempts[0].paced then Walk(c, attempts[1..])
    else
      var (c1, end) := Via(c.(tried := true), attempts[0]);
      Walk(Booked(c1, attempts[0].ca, end), attempts[1..])
  }

  /** The second chances, one per slot that cooled off in this call. */
  function Again(c: Call, cas: seq<nat>, i: nat, chance: nat -> Attempt): Call
    requires i <= |cas|
    decreases |cas| - i
  {
    if i == |cas| || c.end.Some? then c
    else
      var (c1, end) := Via(c, chance(i).(ca := cas[i]));
      Again(if end.Fails? then c1 else c1.(end := Some(end)), cas, i + 1, chance)
  }

  /** Everything the CAs, the clock and the other orders decide about one call. `attempts` are
      the configured slots, in order, that no other order has cooling when the walk begins. */
  datatype World = World(now: int, known: bool, first: ResumeRun, again: ResumeRun,
                         attempts: seq<Attempt>, chance: nat -> Attempt)

  /** The record the call resumes: not past its hour, and of a CA still configured. */
  function Held(rec: Option<Rec>, w: World): Option<Rec> {
    if rec.Some? && w.now - rec.value.at <= ORDER_TTL_MS && w.known then rec else None
  }

  function Started(rec: Option<Rec>, w: World): Call {
    var held := Held(rec, w);
    if held.None? then Call(None, [], false, [], false, false, None)
    else
      var (rec1, end) := Resume(held, w.first, w.again);
      Booked(Call(rec1, [], false, [], false, true, None), held.value.ca, end)
  }

  /** The walk leaves out a slot this call cooled off itself, under the resume. */
  function Usable(attempts: seq<Attempt>, cooled: seq<nat>): (r: seq<Attempt>)
    ensures r == [] <==> forall i | 0 <= i < |attempts| :: attempts[i].ca in cooled
    ensures forall a | a in r :: a in attempts
  {
    if attempts == [] then []
    else (if attempts[0].ca in cooled then [] else [attempts[0]]) + Usable(attempts[1..], cooled)
  }

  /** acmeIssue. */
  function Issue(rec: Option<Rec>, w: World): Call {
    var started := Started(rec, w);
    var walked := Walk(started, Usable(w.attempts, started.cooled));
    Again(walked, if walked.proven then walked.cooled else [], 0, w.chance)
  }

  // --- the walk keeps the record exactly while the order is pending ---------------------------------

  /** From here on the record is this call's own: it is there exactly if the call ended pending. */
  predicate Own(c: Call) { c.rec.Some? <==> c.end == Some(StillPending) }

  /** Nothing was asked for while a record was held. */
  predicate Clean(c: Call) { forall i | 0 <= i < |c.asks| :: !c.asks[i] }

  /** An older record is still held: the first newOrder is asked over it, and it survives
      exactly until an attempt gets past its challenge set-up. */
  predicate Stale(c: Call) {
    && (!c.reached ==> c.rec.Some? && c.end.None?)
    && (c.reached ==> Own(c) && c.asks != [])
    && (c.asks != [] ==> c.asks[0])
  }

  /** The same while a run is under way, whose own end is not booked yet. */
  predicate StaleSoFar(c: Call, end: End) {
    && (!c.reached ==> c.rec.Some? && end.Fails?)
    && (c.reached ==> c.rec.Some? == end.StillPending? && c.asks != [])
    && (c.asks != [] ==> c.asks[0])
  }

  lemma ViaOnceKeeps(c: Call, ca: nat, r: ViaRun, before: End)
    requires before.Fails?
    ensures var c1 := ViaOnce(c, ca, r);
            && (c.rec.None? && Clean(c) ==> c1.rec.Some? == EndOf(r).StillPending? && Clean(c1))
            && (StaleSoFar(c, before) ==> StaleSoFar(c1, EndOf(r)))
  {
    var c1 := ViaOnce(c, ca, r);
    if c.rec.None? && Clean(c) && c1.asks != c.asks {
      forall i | 0 <= i < |c1.asks| ensures !c1.asks[i] {
        assert i < |c.asks| ==> c1.asks[i] == c.asks[i];
      }
    }
  }

  lemma ViaKeeps(c: Call, a: Attempt)
    requires c.end.None?
    ensures var (c1, end) := Via(c, a);
            && c1.end.None?
            && (c.rec.None? && Clean(c) ==> c1.rec.Some? == end.StillPending? && Clean(c1))
            && (Stale(c) ==> StaleSoFar(c1, end))
  {
    ViaOnceKeeps(c, a.ca, a.first, Fails(Refused));
    if EndOf(a.first).Fails? {
      ViaOnceKeeps(ViaOnce(c, a.ca, a.first), a.ca, a.again, EndOf(a.first));
    }
    hide Clean, Asked;
  }

  lemma {:induction false} WalkKeeps(c: Call, attempts: seq<Attempt>)
    ensures Own(c) && Clean(c) ==> Own(Walk(c, attempts)) && Clean(Walk(c, attempts))
    ensures Stale(c) ==> Stale(Walk(c, attempts))
    decreases |attempts|
  {
    if attempts != [] && c.end.None? {
      if attempts[0].paced {
        WalkKeeps(c, attempts[1..]);
      } else {
        var t := c.(tried := true);
        ViaKeeps(t, attempts[0]);
        var (c1, end) := Via(t, attempts[0]);
        WalkKeeps(Booked(c1, attempts[0].ca, end), attempts[1..]);
      }
    }
  }

  lemma {:induction false} AgainKeeps(c: Call, cas: seq<nat>, i: nat, chance: nat -> Attempt)
    requires i <= |cas|
    ensures Own(c) && Clean(c) ==> Own(Again(c, cas, i, chance)) && Clean(Again(c, cas, i, chance))
    ensures Stale(c) ==> Stale(Again(c, cas, i, chance))
    decreases |cas| - i
  {
    if i < |cas| && c.end.None? {
      var a := chance(i).(ca := cas[i]);
      ViaKeeps(c, a);
      var (c1, end) := Via(c, a);
      AgainKeeps(if end.Fails? then c1 else c1.(end := Some(end)), cas, i + 1, chance);
    }
  }

  lemma EndedStays(c: Call, w: World)
    requires c.end.Some?
    ensures Walk(c, Usable(w.attempts, c.cooled)) == c && Again(c, if c.proven then c.cooled else [], 0, w.chance) == c
  {}

  lemma AgainStays(c: Call, w: World)
    requires c.end.Some? || !c.proven
    ensures Again(c, if c.proven then c.cooled else [], 0, w.chance) == c
  {}

  lemma IssueKeeps(rec: Option<Rec>, w: World)
    ensures var c := Started(rec, w);
            && (Own(c) && Clean(c) ==> Own(Issue(rec, w)) && Clean(Issue(rec, w)))
            && (Stale(c) ==> Stale(Issue(rec, w)))
            && (c.end.Some? ==> Issue(rec, w) == c)
  {
    var c := Started(rec, w);
    var slots := Usable(w.attempts, c.cooled);
    var walked := Walk(c, slots);
    WalkKeeps(c, slots);
    AgainKeeps(walked, if walked.proven then walked.cooled else [], 0, w.chance);
  }

  // --- main results ---------------------------------------------------------------------------------

  /** The held order's slot had no account and could not get one. */
  predicate Unresumable(rec: Option<Rec>, w: World) { Held(rec, w).Some? && w.first.NoAccount? }

  /** The account died under the resume, which threw the record away, and its second run
      found the order still pending. */
  predicate ForgottenPending(rec: Option<Rec>, w: World) {
    Held(rec, w).Some? && Retries(w.first) && ResumeEnd(w.again).StillPending?
  }

  /** The two worlds answer alike until the walk begins, and have the same slots for it. */
  predicate Agree(v: World, w: World) {
    && v.now == w.now && v.known == w.known && v.first == w.first
    && |v.attempts| == |w.attempts| && forall i | 0 <= i < |v.attempts| :: v.attempts[i].ca == w.attempts[i].ca
  }

  /** A slot other than the held order's is configured and not cooling. */
  predicate OtherSlot(rec: Option<Rec>, w: World)
    requires Held(rec, w).Some?
  {
    exists i | 0 <= i < |w.attempts| :: w.attempts[i].ca != Held(rec, w).value.ca
  }

  /** While a record is held no new order is placed, whatever the CAs answer from there on,
      exactly when the resume got an account or there is no other slot to walk to; else the
      walk may order afresh over the held record. */
  lemma NoOrderOverAHeldRecordExactly(rec: Option<Rec>, w: World)
    ensures (forall v | Agree(v, w) :: Clean(Issue(rec, v))) <==> !(Unresumable(rec, w) && OtherSlot(rec, w))
  {
    if Unresumable(rec, w) && OtherSlot(rec, w) {
      OrdersElsewhere(rec, w);
    } else {
      forall v | Agree(v, w) ensures Clean(Issue(rec, v)) {
        if Unresumable(rec, v) { NowhereElse(rec, v); } else { NoOrderOver(rec, v); }
      }
    }
  }

  lemma NowhereElse(rec: Option<Rec>, w: World)
    requires Unresumable(rec, w) && !OtherSlot(rec, w)
    ensures Clean(Issue(rec, w))
  {
    var c := Started(rec, w);
    assert c.cooled == [Held(rec, w).value.ca];
    assert Usable(w.attempts, c.cooled) == [];
    AgainStays(c, w);
  }

  /** Per call: the walk of an unresumable record asks over it with its first newOrder. */
  lemma NoOrderOver(rec: Option<Rec>, w: World)
    ensures Clean(Issue(rec, w)) <==> !Unresumable(rec, w) || Issue(rec, w).asks == []
  {
    hide Issue, Clean;
    IssueKeeps(rec, w);
    CleanMeans(Started(rec, w));
    CleanMeans(Issue(rec, w));
  }

  function Orders(ca: nat): Attempt { Attempt(ca, false, Finalized(Issued, 0), Early(Refused, false)) }

  lemma OrdersElsewhere(rec: Option<Rec>, w: World)
    requires Unresumable(rec, w) && OtherSlot(rec, w)
    ensures exists v :: Agree(v, w) && !Clean(Issue(rec, v))
  {
    var v := w.(attempts := seq(|w.attempts|, i requires 0 <= i < |w.attempts| => Orders(w.attempts[i].ca)));
    var c := Started(rec, v);
    assert c.cooled == [Held(rec, w).value.ca] && c.rec.Some? && c.asks == [];
    var slots := Usable(v.attempts, c.cooled);
    var i :| 0 <= i < |w.attempts| && w.attempts[i].ca != Held(rec, w).value.ca;
    assert v.attempts[i].ca !in c.cooled;
    assert slots[0] in slots;
    OrdersOnce(c, slots);
    AgainStays(Walk(c, slots), v);
    CleanMeans(Issue(rec, v));
    assert Agree(v, w);
  }

  lemma OrdersOnce(c: Call, slots: seq<Attempt>)
    requires c.end.None? && c.rec.Some? && c.asks == [] && slots != [] && slots[0] == Orders(slots[0].ca)
    ensures Walk(c, slots).asks == [true] && Walk(c, slots).end.Some?
  {
    var c1 := Booked(Via(c.(tried := true), slots[0]).0, slots[0].ca, Issued);
    assert Walk(c, slots) == Walk(c1, slots[1..]) == c1;
  }

  lemma CleanMeans(c: Call)
    ensures c.asks == [] ==> Clean(c)
    ensures c.asks != [] && c.asks[0] ==> !Clean(c)
  {}

  // --- how a call ends ---------------------------------------------------------------------------------

  /** An attempt's own outcome: that of its one repetition if the first run lost its account. */
  function Outcome(a: Attempt): End {
    if a.first.Finalized? && !(a.first.end.Fails? && a.first.end.e.Lost?) then a.first.end
    else if !a.first.Finalized? && !a.first.e.Lost? then Fails(a.first.e)
    else match a.again
      case Early(e, _) => Fails(e)
      case Late(e) => Fails(e)
      case Finalized(end, _) => end
  }

  predicate Settles(a: Attempt) { !Outcome(a).Fails? }

  /** The first slot let through whose attempt settles the order, one way or the other. */
  predicate FirstSettled(attempts: seq<Attempt>, i: nat) {
    i < |attempts| && !attempts[i].paced && Settles(attempts[i])
    && forall j | 0 <= j < i :: attempts[j].paced || !Settles(attempts[j])
  }

  lemma ViaOutcome(c: Call, a: Attempt, ca: nat)
    ensures Via(c, a).1 == Outcome(a) && Outcome(a.(ca := ca)) == Outcome(a) && Settles(a.(ca := ca)) == Settles(a)
  {
    hide ViaOnce;
  }

  lemma BookedEnds(c: Call, ca: nat, end: End)
    requires c.end.None?
    ensures Booked(c, ca, end).end == if end.Fails? then None else Some(end)
  {}

  lemma SettledInRest(attempts: seq<Attempt>, i: nat)
    requires FirstSettled(attempts, i) && i > 0
    ensures FirstSettled(attempts[1..], i - 1)
  {
    hide Settles;
    assert forall j | 0 <= j < |attempts[1..]| :: attempts[1..][j] == attempts[j + 1];
  }

  lemma {:induction false} WalkEnds(c: Call, attempts: seq<Attempt>)
    requires c.end.None?
    ensures forall i: nat | FirstSettled(attempts, i) :: Walk(c, attempts).end == Some(Outcome(attempts[i]))
    ensures (forall i | 0 <= i < |attempts| :: attempts[i].paced || !Settles(attempts[i])) ==> Walk(c, attempts).end.None?
    decreases |attempts|
  {
    if attempts != [] {
      var a, rest := attempts[0], attempts[1..];
      assert (forall j | 0 <= j < |attempts| :: attempts[j].paced || !Settles(attempts[j])) ==>
             forall j | 0 <= j < |rest| :: rest[j].paced || !Settles(rest[j]) by {
        assert forall j | 0 <= j < |rest| :: rest[j] == attempts[j + 1];
      }
      var (c1, end) := Via(c.(tried := true), a);
      ViaOutcome(c.(tried := true), a, 0);
      BookedEnds(c1, a.ca, end);
      var next := if a.paced then c else Booked(c1, a.ca, end);
      hide Via, CaLevel, Outcome, Booked;
      if next.end.None? { WalkEnds(next, rest); } else { assert Walk(next, rest) == next; }
      forall i: nat | FirstSettled(attempts, i) ensures Walk(c, attempts).end == Some(Outcome(attempts[i])) {
        if i > 0 { SettledInRest(attempts, i); }
      }
    }
  }

  lemma {:induction false} AgainEnds(c: Call, cas: seq<nat>, i: nat, chance: nat -> Attempt)
    requires i <= |cas| && c.end.None?
    ensures forall k | i <= k < |cas| && Settles(chance(k)) && (forall j | i <= j < k :: !Settles(chance(j))) ::
              Again(c, cas, i, chance).end == Some(Outcome(chance(k)))
    ensures (forall k | i <= k < |cas| :: !Settles(chance(k))) ==> Again(c, cas, i, chance).end.None?
    decreases |cas| - i
  {
    if i < |cas| {
      var a := chance(i).(ca := cas[i]);
      var (c1, end) := Via(c, a);
      ViaOutcome(c, a, 0);
      ViaOutcome(c, chance(i), cas[i]);
      hide Via, Outcome;
      if end.Fails? { AgainEnds(c1, cas, i + 1, chance); }
    }
  }

  /** A call ends as the first of its attempts that settles the order: the resume of a held
      order, then the slots let through in their order, then the second chances. With a resumed
      order settled, no new one is placed; with none settled the call fails. */
  lemma EndsWithFirstSettled(rec: Option<Rec>, w: World)
    ensures var c, started := Issue(rec, w), Started(rec, w);
            var slots := Usable(w.attempts, started.cooled);
            var walked := Walk(started, slots);
            var resumed := Held(rec, w).Some? && !Resume(rec, w.first, w.again).1.Fails?;
            && (resumed ==> c.end == Some(Resume(rec, w.first, w.again).1) && c.asks == [])
            && (!resumed ==> forall i: nat | FirstSettled(slots, i) :: c.end == Some(Outcome(slots[i])))
            && (!resumed && walked.end.None? && walked.proven ==>
                  forall k | 0 <= k < |walked.cooled| && Settles(w.chance(k)) && (forall j | 0 <= j < k :: !Settles(w.chance(j))) ::
                    c.end == Some(Outcome(w.chance(k))))
            && (!resumed && walked.end.None? && (walked.proven ==> forall k | 0 <= k < |walked.cooled| :: !Settles(w.chance(k))) ==>
                  c.end.None?)
  {
    var started := Started(rec, w);
    var slots := Usable(w.attempts, started.cooled);
    var walked := Walk(started, slots);
    if started.end.Some? {
      EndedStays(started, w);
    } else {
      WalkEnds(started, slots);
      if walked.end.None? {
        if walked.proven { AgainEnds(walked, walked.cooled, 0, w.chance); } else { AgainStays(walked, w); }
      } else {
        AgainStays(walked, w);
      }
    }
    hide Walk, Again, Usable, Outcome, FirstSettled, Settles;
  }

  /** A record past its hour, or of a CA no longer configured, is as good as none; one within it
      is resumed on its own CA, and an order so found issued places no other. */
  lemma OldRecordIsIgnored(rec: Option<Rec>, w: World)
    requires rec.Some? && (w.now - rec.value.at > 3600000 || !w.known)
    ensures Issue(rec, w) == Issue(None, w)
  {}

  lemma HeldRecordIsResumed(rec: Option<Rec>, w: World)
    requires rec.Some? && w.now - rec.value.at <= 3600000 && w.known && w.first == Polled(Issued)
    ensures Issue(rec, w).end == Some(Issued) && Issue(rec, w).asks == [] && Issue(rec, w).rec.None?
  {
    EndedStays(Started(rec, w), w);
  }

  // --- when a stale record goes ---------------------------------------------------------------------

  /** A run, or its repetition on a fresh account, that gets past the challenge set-up. */
  predicate GetsPast(a: Attempt) {
    !a.first.Early? || (a.first.e.Lost? && !a.again.Early?)
  }

  /** How a run that does not get past it fails. */
  function EarlyErr(a: Attempt): Err
    requires !GetsPast(a)
  {
    if a.first.e.Lost? then a.again.e else a.first.e
  }

  predicate SomeGetPast(attempts: seq<Attempt>) {
    exists i | 0 <= i < |attempts| :: !attempts[i].paced && GetsPast(attempts[i])
  }

  /** Some CA refused the name itself, which proves the network and earns second chances. */
  predicate SomeRefuse(attempts: seq<Attempt>)
    requires !SomeGetPast(attempts)
  {
    exists i | 0 <= i < |attempts| :: !attempts[i].paced && !CaLevel(EarlyErr(attempts[i]))
  }

  /** How many slots cool off in a walk that gets nowhere. */
  function Cooling(attempts: seq<Attempt>): nat
    requires !SomeGetPast(attempts)
  {
    if attempts == [] then 0
    else
      assert !SomeGetPast(attempts[1..]) by { RestGetsNowhere(attempts); }
      assert attempts[0].paced || !GetsPast(attempts[0]);
      (if !attempts[0].paced && CaLevel(EarlyErr(attempts[0])) then 1 else 0) + Cooling(attempts[1..])
  }

  lemma RestGetsNowhere(attempts: seq<Attempt>)
    requires attempts != []
    ensures SomeGetPast(attempts) <==> (!attempts[0].paced && GetsPast(attempts[0])) || SomeGetPast(attempts[1..])
    ensures !SomeGetPast(attempts) ==>
              (SomeRefuse(attempts) <==> (!attempts[0].paced && !CaLevel(EarlyErr(attempts[0]))) || SomeRefuse(attempts[1..]))
  {
    var rest := attempts[1..];
    assert forall i | 0 <= i < |rest| :: rest[i] == attempts[i + 1];
    assert forall i | 0 < i < |attempts| :: attempts[i] == rest[i - 1];
  }

  /** Read off the answers beforehand: some run of the walk gets past its challenge set-up, or
      the walk earns second chances and one of those does. The resumed slot's is the first. */
  predicate Overwrites(rec: Option<Rec>, w: World)
    requires Held(rec, w).Some?
  {
    var slots := Usable(w.attempts, [Held(rec, w).value.ca]);
    SomeGetPast(slots) || (SomeRefuse(slots) && exists i :: 0 <= i <= Cooling(slots) && GetsPast(w.chance(i)))
  }

  lemma ViaReaches(c: Call, a: Attempt)
    ensures var (c1, end) := Via(c, a);
            && c1.reached == (c.reached || GetsPast(a))
            && (!GetsPast(a) ==> end == Fails(EarlyErr(a)))
  {}

  lemma {:induction false} WalkReaches(c: Call, attempts: seq<Attempt>)
    requires c.end.None? && !c.reached
    ensures var d := Walk(c, attempts);
            && (SomeGetPast(attempts) ==> d.reached)
            && (!SomeGetPast(attempts) ==>
                  && !d.reached && d.end.None? && |d.cooled| == |c.cooled| + Cooling(attempts)
                  && d.proven == (c.proven || SomeRefuse(attempts)))
    decreases |attempts|
  {
    if attempts != [] {
      RestGetsNowhere(attempts);
      if attempts[0].paced {
        WalkReaches(c, attempts[1..]);
      } else {
        hide Via, GetsPast, SomeGetPast, SomeRefuse, EarlyErr, CaLevel;
        var t := c.(tried := true);
        ViaReaches(t, attempts[0]);
        var (c1, end) := Via(t, attempts[0]);
        var c2 := Booked(c1, attempts[0].ca, end);
        if GetsPast(attempts[0]) {
          ReachedStays(c2, attempts[1..]);
        } else {
          WalkReaches(c2, attempts[1..]);
        }
      }
    }
  }

  lemma {:induction false} ReachedStays(c: Call, attempts: seq<Attempt>)
    requires c.reached
    ensures Walk(c, attempts).reached
    decreases |attempts|
  {
    if attempts != [] && c.end.None? {
      hide GetsPast;
      ViaReaches(c.(tried := true), attempts[0]);
      var (c1, end) := Via(c.(tried := true), attempts[0]);
      ReachedStays(if attempts[0].paced then c else Booked(c1, attempts[0].ca, end), attempts[1..]);
    }
  }

  lemma {:induction false} AgainReaches(c: Call, cas: seq<nat>, i: nat, chance: nat -> Attempt)
    requires i <= |cas|
    ensures var d := Again(c, cas, i, chance);
            && (c.reached ==> d.reached)
            && (!c.reached && c.end.None? ==> (d.reached <==> exists j :: i <= j < |cas| && GetsPast(chance(j))))
    decreases |cas| - i
  {
    if i < |cas| && c.end.None? {
      var a := chance(i).(ca := cas[i]);
      assert GetsPast(a) == GetsPast(chance(i));
      hide Via, GetsPast;
      ViaReaches(c, a);
      var (c1, end) := Via(c, a);
      AgainReaches(if end.Fails? then c1 else c1.(end := Some(end)), cas, i + 1, chance);
    }
  }

  /** The call of an unresumable record gets past a challenge set-up exactly when the answers
      hold such a run. */
  lemma ReachedExactly(rec: Option<Rec>, w: World)
    requires Unresumable(rec, w)
    ensures Issue(rec, w).reached <==> Overwrites(rec, w)
  {
    hide Via, GetsPast, SomeGetPast, SomeRefuse, EarlyErr, Cooling, Walk, Again;
    var c := Started(rec, w);
    assert !c.reached && c.end.None? && c.cooled == [Held(rec, w).value.ca] && !c.proven;
    var slots := Usable(w.attempts, c.cooled);
    WalkReaches(c, slots);
    var d := Walk(c, slots);
    AgainReaches(d, if d.proven then d.cooled else [], 0, w.chance);
  }

  /** When a call finishes, the record remains exactly if it ended pending; the two ways out
      are a resume without an account whose walk got past no challenge set-up, and a forgotten
      pending order. */
  lemma RecordRemainsExactly(rec: Option<Rec>, w: World)
    ensures var c := Issue(rec, w);
            c.rec.Some? <==> if Unresumable(rec, w) then c.end == Some(StillPending) || !Overwrites(rec, w)
                             else c.end == Some(StillPending) && !ForgottenPending(rec, w)
  {
    if Unresumable(rec, w) { ReachedExactly(rec, w); }
    hide Issue, Clean, Overwrites;
    IssueKeeps(rec, w);
    CleanMeans(Started(rec, w));
  }

  /** Both ways out exist: a relay restarted while its CA's registration fails orders afresh
      elsewhere over the held record... */
  lemma OrdersOverAHeldRecord()
    ensures exists rec: Option<Rec>, w: World :: !Clean(Issue(rec, w))
  {
    var rec := Some(Rec(0, 0));
    var elsewhere := Orders(1);
    var w := World(0, true, NoAccount, NoAccount, [elsewhere], i => elsewhere);
    var c := Started(rec, w);
    assert Usable([elsewhere], c.cooled) == [elsewhere] by { assert [elsewhere][1..] == []; }
    OrdersOnce(c, [elsewhere]);
    AgainStays(Walk(c, [elsewhere]), w);
    CleanMeans(Issue(rec, w));
  }

  /** ...and an account disowned under a resume loses a pending order its retry still found. */
  lemma ForgetsAPendingOrder()
    ensures exists rec: Option<Rec>, w: World ::
              Issue(rec, w).end == Some(StillPending) && Issue(rec, w).rec.None?
  {
    var rec := Some(Rec(0, 0));
    var idle := Attempt(1, true, Early(Refused, false), Early(Refused, false));
    var w := World(0, true, Polled(Fails(Lost(false))), Polled(StillPending), [], i => idle);
    EndedStays(Started(rec, w), w);
    assert Issue(rec, w).end == Some(StillPending) && Issue(rec, w).rec.None?;
  }

  // --- the store and the walk, in place ---------------------------------------------------------------

  class OrderBook {
    var orders: map<nat, Rec>

    ghost function Get(key: nat): Option<Rec>
      reads this
    {
      if key in orders then Some(orders[key]) else None
    }

    constructor ()
      ensures orders == map[]
    {
      orders := map[];
    }

    method DropOrder(key: nat)
      modifies this
      ensures orders == old(orders) - {key}
    {
      orders := orders - {key};
    }

    /** acmeIssueViaOnce with its `finally`. */
    method IssueViaOnce(key: nat, ca: nat, r: ViaRun, ghost c: Call) returns (end: End, ghost c1: Call)
      requires c.rec == Get(key)
      modifies this
      ensures c1 == ViaOnce(c, ca, r) && c1.rec == Get(key) && end == EndOf(r)
      ensures orders - {key} == old(orders) - {key}
    {
      c1 := ViaOnce(c, ca, r);
      if r.Early? { return Fails(r.e), c1; }
      var keep := false;
      end := EndOf(r);
      if r.Finalized? {
        orders := orders[key := Rec(ca, r.at)];
        if r.end.StillPending? { keep := true; }
      }
      if !keep { DropOrder(key); }
    }

    /** acmeIssueVia: withAccount around one run. */
    method IssueVia(key: nat, a: Attempt, ghost c: Call) returns (end: End, ghost c1: Call)
      requires c.rec == Get(key)
      modifies this
      ensures (c1, end) == Via(c, a) && c1.rec == Get(key)
      ensures orders - {key} == old(orders) - {key}
    {
      hide ViaOnce;
      end, c1 := IssueViaOnce(key, a.ca, a.first, c);
      if end.Fails? && end.e.Lost? {
        end, c1 := IssueViaOnce(key, a.ca, a.again, c1);
      }
    }

    method ResumeRunOnce(key: nat, r: ResumeRun) returns (end: End)
      modifies this
      ensures Get(key) == ResumeOnce(old(Get(key)), r) && end == ResumeEnd(r)
      ensures orders - {key} == old(orders) - {key}
    {
      if r.NoAccount? { return Fails(CaDown); }   // acmeAccount throws outside the try
      end := r.end;
      if !r.end.StillPending? { DropOrder(key); }
    }

    /** acmeIssue: resume, walk, second chances. `end` is empty when every slot refused, failed
        or was passed over. */
    method AcmeIssue(key: nat, w: World) returns (end: Option<End>, ghost c: Call)
      modifies this
      ensures c == Issue(old(Get(key)), w) && c.end == end && c.rec == Get(key)
      ensures orders - {key} == old(orders) - {key}
    {
      hide Via, Walk, Again, ResumeOnce;
      end := None;
      var cooled: seq<nat>, proven := [], false;
      if key in orders && (w.now - orders[key].at > ORDER_TTL_MS || !w.known) { DropOrder(key); }
      c := Started(old(Get(key)), w);
      if key in orders {
        var ca := orders[key].ca;
        var e := ResumeRunOnce(key, w.first);
        if e.Fails? && e.e.Lost? { e := ResumeRunOnce(key, w.again); }
        match e
        case Issued => end := Some(Issued);
        case StillPending => end := Some(StillPending);
        case Fails(err) => if CaLevel(err) { cooled := cooled + [ca]; } else { proven := true; }
      }
      if end.Some? { EndedStays(c, w); return; }
      end, cooled, proven, c := WalkSlots(key, Usable(w.attempts, cooled), cooled, proven, c);
      if end.Some? || !proven { AgainStays(c, w); return; }
      end, c := SecondChances(key, cooled, w.chance, c);
    }

    method WalkSlots(key: nat, attempts: seq<Attempt>, cooled0: seq<nat>, proven0: bool, ghost c0: Call)
      returns (end: Option<End>, cooled: seq<nat>, proven: bool, ghost c: Call)
      requires c0.rec == Get(key) && c0.end.None? && c0.cooled == cooled0 && c0.proven == proven0
      modifies this
      ensures c == Walk(c0, attempts) && c.rec == Get(key) && c.end == end && c.cooled == cooled && c.proven == proven
      ensures orders - {key} == old(orders) - {key}
    {
      hide Via, CaLevel;
      end, cooled, proven, c := None, cooled0, proven0, c0;
      for i := 0 to |attempts|
        invariant Walk(c, attempts[i..]) == Walk(c0, attempts)
        invariant c.rec == Get(key) && end.None? && c.end.None? && c.cooled == cooled && c.proven == proven
        invariant orders - {key} == old(orders) - {key}
      {
        var a := attempts[i];
        assert attempts[i..][0] == a && attempts[i..][1..] == attempts[i + 1..];
        if a.paced { continue; }
        var e: End;
        e, c := IssueVia(key, a, c.(tried := true));
        c := Booked(c, a.ca, e);
        match e
        case Issued => return Some(Issued), cooled, proven, c;
        case StillPending => return Some(StillPending), cooled, proven, c;
        case Fails(err) => if CaLevel(err) { cooled := cooled + [a.ca]; } else { proven := true; }
      }
    }

    method SecondChances(key: nat, cooled: seq<nat>, chance: nat -> Attempt, ghost c0: Call)
      returns (end: Option<End>, ghost c: Call)
      requires c0.rec == Get(key) && c0.end.None?
      modifies this
      ensures c == Again(c0, cooled, 0, chance) && c.rec == Get(key) && c.end == end
      ensures orders - {key} == old(orders) - {key}
    {
      hide Via;
      end, c := None, c0;
      for i := 0 to |cooled|
        invariant Again(c, cooled, i, chance) == Again(c0, cooled, 0, chance)
        invariant c.rec == Get(key) && end.None? && c.end.None?
        invariant orders - {key} == old(orders) - {key}
      {
        var e: End;
        e, c := IssueVia(key, chance(i).(ca := cooled[i]), c);
        if !e.Fails? {
          c := c.(end := Some(e));
          return Some(e), c;
        }
      }
    }
  }
}
