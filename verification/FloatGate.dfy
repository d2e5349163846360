/** The float gate (relay/billing.js, relay/vaultsvc.js): a top-up is sold only while the
    company wallet still covers every top-up sold before it, and the sweep that returns
    surplus to the treasury must leave the sold credit behind. */
module FloatGate {

  /** Whether a deposit for the order may still leave the wallet, or has left it. */
  datatype Deposit = NoDeposit | InFlight | Paid

  /** `lapsed`: expired before any payment; a late one can still bring it back for review. */
  datatype Claim = Claim(amount: nat, open: bool, deposit: Deposit, lapsed: bool)

  /** `sweeping` is a treasury sweep broadcast and not yet mined. */
  datatype State = State(claims: seq<Claim>, float: nat, sweeping: nat)

  /** The source's reservedTopup6: what every non-terminal top-up still claims. */
  function Reserved(cs: seq<Claim>): nat {
    if cs == [] then 0
    else Reserved(cs[..|cs| - 1]) + if cs[|cs| - 1].open then cs[|cs| - 1].amount else 0
  }

  /** Deposits mined for orders not yet marked complete. */
  function PaidOpen(cs: seq<Claim>): nat {
    if cs == [] then 0
    else PaidOpen(cs[..|cs| - 1]) + if cs[|cs| - 1].open && cs[|cs| - 1].deposit.Paid? then cs[|cs| - 1].amount else 0
  }

  method ReservedTopup6(cs: seq<Claim>) returns (s: nat)
    ensures s == Reserved(cs)
  {
    s := 0;
    for i := 0 to |cs|
      invariant s == Reserved(cs[..i])
    {
      assert cs[..i + 1][..i] == cs[..i];
      if cs[i].open { s := s + cs[i].amount; }
    }
    assert cs[..|cs|] == cs;
  }

  const FLOAT_TARGET_6: nat := 200000000
  const FLOAT_CEILING_6: nat := 400000000

  function SweepAmount(balance: nat, target: nat, ceiling: nat, reserved: nat): nat {
    var keep := if reserved > target then reserved else target;
    if balance > ceiling && balance > keep then balance - keep else 0
  }

  datatype Event =
    | Sell(amount: nat)       // the gate, then the order insert, in one stretch
    | Commit(i: nat)          // settlement is past its plan: a deposit may leave
    | Fails(i: nat)           // it will not: refused before broadcast, or reverted
    | Mines(i: nat)
    | Completes(i: nat)
    | Closes(i: nat)          // rejected by a reviewer
    | Expires(i: nat)         // the sweep, before anything was paid
    | Reopens(i: nat)         // a payment arrives for an expired order
    | Income(amount: nat)
    | SweepSent | SweepMined

  function Next(s: State, e: Event): State {
    match e
    case Sell(a) =>
      if 0 < a && Reserved(s.claims) + a <= s.float
      then s.(claims := s.claims + [Claim(a, true, NoDeposit, false)]) else s
    case Commit(i) =>
      if i < |s.claims| && s.claims[i].open && s.claims[i].deposit.NoDeposit?
      then s.(claims := s.claims[i := s.claims[i].(deposit := InFlight)]) else s
    case Fails(i) =>
      if i < |s.claims| && s.claims[i].deposit.InFlight?
      then s.(claims := s.claims[i := s.claims[i].(deposit := NoDeposit)]) else s
    case Mines(i) =>
      if i < |s.claims| && s.claims[i].deposit.InFlight? && s.claims[i].amount <= s.float
      then s.(claims := s.claims[i := s.claims[i].(deposit := Paid)], float := s.float - s.claims[i].amount) else s
    case Completes(i) =>
      if i < |s.claims| && s.claims[i].open && s.claims[i].deposit.Paid?
      then s.(claims := s.claims[i := s.claims[i].(open := false)]) else s
    case Closes(i) =>
      if i < |s.claims| && s.claims[i].open
      then s.(claims := s.claims[i := s.claims[i].(open := false)]) else s
    case Expires(i) =>
      if i < |s.claims| && s.claims[i].open && s.claims[i].deposit.NoDeposit?
      then s.(claims := s.claims[i := s.claims[i].(open := false, lapsed := true)]) else s
    case Reopens(i) =>
      if i < |s.claims| && s.claims[i].lapsed
      then s.(claims := s.claims[i := s.claims[i].(open := true, lapsed := false)]) else s
    case Income(a) => s.(float := s.float + a)
    case SweepSent =>
      if s.sweeping == 0
      then s.(sweeping := SweepAmount(s.float, FLOAT_TARGET_6, FLOAT_CEILING_6, Reserved(s.claims))) else s
    case SweepMined =>
      if s.sweeping <= s.float then s.(float := s.float - s.sweeping, sweeping := 0) else s.(sweeping := 0)
  }

  function Run(s: State, es: seq<Event>): State
    decreases |es|
  {
    if es == [] then s else Run(Next(s, es[0]), es[1..])
  }

  /** The promise: sold credit never exceeds the float plus deposits already made for it. */
  predicate Covered(s: State) { Reserved(s.claims) <= s.float + PaidOpen(s.claims) }

  predicate ClaimOk(c: Claim) {
    (c.deposit.InFlight? ==> c.open) && (c.lapsed ==> !c.open && c.deposit.NoDeposit?)
  }

  /** The promise with a sweep in flight counted as gone, and no closed order that can
      still draw on the wallet. */
  predicate Inv(s: State) {
    && Reserved(s.claims) + s.sweeping <= s.float + PaidOpen(s.claims)
    && forall i | 0 <= i < |s.claims| :: ClaimOk(s.claims[i])
  }

  /** Is there float for one more claim, a sweep in flight counted as gone and deposits
      already mined counted in? */
  predicate Room(s: State, amount: nat) { Reserved(s.claims) + amount + s.sweeping <= s.float + PaidOpen(s.claims) }

  /** What the caller can check before acting: close no order whose deposit is in flight,
      and sell, or take back, only what there is room for. */
  predicate Careful(s: State, e: Event) {
    match e
    case Closes(i) => i < |s.claims| ==> !s.claims[i].open || s.claims[i].deposit.NoDeposit?
                                         || s.claims[i].deposit.Paid?
    case Sell(a) => Room(s, a) || Next(s, e) == s
    case Reopens(i) => i < |s.claims| ==> Room(s, s.claims[i].amount) || Next(s, e) == s
    case _ => true
  }

  predicate CarefulRun(s: State, es: seq<Event>)
    decreases |es|
  {
    es == [] || (Careful(s, es[0]) && CarefulRun(Next(s, es[0]), es[1..]))
  }

  lemma {:induction false} SumsUpdate(cs: seq<Claim>, i: nat, c: Claim)
    requires i < |cs|
    ensures Reserved(cs[i := c]) ==
            Reserved(cs) - (if cs[i].open then cs[i].amount else 0) + (if c.open then c.amount else 0)
    ensures PaidOpen(cs[i := c]) ==
            PaidOpen(cs) - (if cs[i].open && cs[i].deposit.Paid? then cs[i].amount else 0)
                         + (if c.open && c.deposit.Paid? then c.amount else 0)
  {
    var n := |cs| - 1;
    if i == n {
      assert cs[i := c][..n] == cs[..n];
    } else {
      assert cs[i := c][..n] == cs[..n][i := c];
      SumsUpdate(cs[..n], i, c);
    }
  }

  lemma SumsAppend(cs: seq<Claim>, c: Claim)
    ensures Reserved(cs + [c]) == Reserved(cs) + (if c.open then c.amount else 0)
    ensures PaidOpen(cs + [c]) == PaidOpen(cs) + (if c.open && c.deposit.Paid? then c.amount else 0)
  {
    assert (cs + [c])[..|cs|] == cs;
  }

  lemma {:induction false} PaidWithinReserved(cs: seq<Claim>)
    ensures PaidOpen(cs) <= Reserved(cs)
  {
    if cs != [] { PaidWithinReserved(cs[..|cs| - 1]); }
  }

  /** What a claim still draws on the wallet. */
  function Owed(c: Claim): nat { if c.open && !c.deposit.Paid? then c.amount else 0 }

  lemma ChangeKeepsInv(s: State, i: nat, c: Claim, float: nat)
    requires Inv(s) && i < |s.claims| && ClaimOk(c) && c.amount == s.claims[i].amount
    requires Reserved(s.claims) + Owed(c) + s.sweeping <= float + PaidOpen(s.claims) + Owed(s.claims[i])
    ensures Inv(s.(claims := s.claims[i := c], float := float))
  {
    SumsUpdate(s.claims, i, c);
    hide Reserved, PaidOpen;
  }

  /** Closing a paid order only ever drops the same amount from both sides. */
  lemma StepKeepsInv(s: State, e: Event)
    requires Inv(s) && Careful(s, e)
    ensures Inv(Next(s, e))
  {
    match e
    case Sell(a) => SumsAppend(s.claims, Claim(a, true, NoDeposit, false));
    case Income(_) =>
    case SweepSent =>
    case SweepMined => PaidWithinReserved(s.claims);
    case _ => ClaimEventKeepsInv(s, e);
  }

  lemma ClaimEventKeepsInv(s: State, e: Event)
    requires Inv(s) && Careful(s, e)
    requires e.Commit? || e.Fails? || e.Mines? || e.Completes? || e.Closes? || e.Expires? || e.Reopens?
    ensures Inv(Next(s, e))
  {
    hide Reserved, PaidOpen;
    if e.i < |s.claims| && Next(s, e) != s {
      assert ClaimOk(s.claims[e.i]);
      ChangeKeepsInv(s, e.i, Next(s, e).claims[e.i], Next(s, e).float);
    }
  }

  lemma {:induction false} RunKeepsInv(s: State, es: seq<Event>)
    requires Inv(s) && CarefulRun(s, es)
    ensures Inv(Run(s, es))
    decreases |es|
  {
    if es != [] {
      StepKeepsInv(s, es[0]);
      RunKeepsInv(Next(s, es[0]), es[1..]);
    }
  }

  // --- main results ---------------------------------------------------------------------

  /** Over every careful run, every top-up sold is covered at every moment. */
  lemma SoldCreditIsCovered(float: nat, es: seq<Event>)
    requires CarefulRun(State([], float, 0), es)
    ensures Covered(Run(State([], float, 0), es))
  {
    RunKeepsInv(State([], float, 0), es);
  }

  ghost predicate StaysCovered(s: State) {
    forall es: seq<Event> | CarefulRun(s, es) :: Covered(Run(s, es))
  }

  lemma CoveredNow(s: State)
    requires StaysCovered(s)
    ensures Covered(s)
  {
    assert CarefulRun(s, []) && Run(s, []) == s;
  }

  lemma StaysOn(s: State, e: Event)
    requires Careful(s, e) && StaysCovered(s)
    ensures StaysCovered(Next(s, e))
  {
    forall es: seq<Event> | CarefulRun(Next(s, e), es) ensures Covered(Run(Next(s, e), es)) {
      assert ([e] + es)[1..] == es;
      assert CarefulRun(s, [e] + es) && Run(s, [e] + es) == Run(Next(s, e), es);
    }
  }

  lemma InvStays(s: State)
    requires Inv(s)
    ensures StaysCovered(s)
  {
    forall es: seq<Event> | CarefulRun(s, es) ensures Covered(Run(s, es)) { RunKeepsInv(s, es); }
  }

  lemma {:induction false} SomePaidOpen(cs: seq<Claim>) returns (i: nat)
    requires PaidOpen(cs) > 0
    ensures i < |cs| && cs[i].open && cs[i].deposit.Paid? && cs[i].amount > 0
  {
    var n := |cs| - 1;
    if cs[n].open && cs[n].deposit.Paid? && cs[n].amount > 0 { i := n; } else { i := SomePaidOpen(cs[..n]); }
  }

  /** Let every order whose deposit is mined complete: nothing else moves. */
  lemma {:induction false} FinishPaid(s: State) returns (t: State)
    requires StaysCovered(s)
    ensures StaysCovered(t) && t.float == s.float && t.sweeping == s.sweeping
    ensures PaidOpen(t.claims) == 0 && Reserved(t.claims) == Reserved(s.claims) - PaidOpen(s.claims)
    ensures |t.claims| == |s.claims| && forall i | 0 <= i < |s.claims| && s.claims[i].deposit.InFlight? :: t.claims[i] == s.claims[i]
    decreases PaidOpen(s.claims)
  {
    if PaidOpen(s.claims) == 0 { return s; }
    var i := SomePaidOpen(s.claims);
    SumsUpdate(s.claims, i, s.claims[i].(open := false));
    StaysOn(s, Completes(i));
    t := FinishPaid(Next(s, Completes(i)));
  }

  /** A reviewer's rejection is safe exactly when no deposit for the order is in flight: the closed claim frees its float for a sale the deposit then eats. */
  lemma ClosingIsSafeExactly(s: State, i: nat)
    requires Inv(s) && i < |s.claims| && s.claims[i].open && 0 < s.claims[i].amount
    ensures StaysCovered(Next(s, Closes(i))) <==> !s.claims[i].deposit.InFlight?
  {
    var s1 := Next(s, Closes(i));
    SumsUpdate(s.claims, i, s.claims[i].(open := false));
    if !s.claims[i].deposit.InFlight? {
      StepKeepsInv(s, Closes(i));
      InvStays(s1);
    } else if StaysCovered(s1) {
      ClosedInFlight(s1, i);
    }
  }

  /** A closed order with a deposit in flight and room in the wallet beside it: the orders
      already paid complete, the sweep lands, the room is sold, and then the deposit mines. */
  lemma ClosedInFlight(s: State, i: nat)
    requires i < |s.claims| && !s.claims[i].open && s.claims[i].deposit.InFlight? && 0 < s.claims[i].amount
    requires Reserved(s.claims) + s.claims[i].amount + s.sweeping <= s.float + PaidOpen(s.claims)
    ensures !StaysCovered(s)
  {
    if StaysCovered(s) {
      PaidWithinReserved(s.claims);
      var s1 := FinishPaid(s);
      var s2 := Next(s1, SweepMined);
      StaysOn(s1, SweepMined);
      var room := s2.float - Reserved(s2.claims);
      var s3 := Next(s2, Sell(room));
      SumsAppend(s2.claims, Claim(room, true, NoDeposit, false));
      StaysOn(s2, Sell(room));
      assert s3.claims[i] == s.claims[i];
      SumsUpdate(s3.claims, i, s3.claims[i].(deposit := Paid));
      StaysOn(s3, Mines(i));
      CoveredNow(Next(s3, Mines(i)));
      assert false;
    }
  }

  /** A sale the gate accepts is safe exactly when it also fits what a sweep already
      broadcast will leave; the gate itself reads the balance before that sweep lands. */
  lemma SellingIsSafeExactly(s: State, a: nat)
    requires Inv(s) && 0 < a && Reserved(s.claims) + a <= s.float
    ensures StaysCovered(Next(s, Sell(a)))
            <==> Room(s, a)
  {
    var s1 := Next(s, Sell(a));
    SumsAppend(s.claims, Claim(a, true, NoDeposit, false));
    if Room(s, a) {
      StepKeepsInv(s, Sell(a));
      InvStays(s1);
    } else if StaysCovered(s1) {
      PaidWithinReserved(s.claims);
      StaysOn(s1, SweepMined);
      CoveredNow(Next(s1, SweepMined));
    }
  }

  /** A payment that revives an expired order reserves its amount again, past the gate: safe
      exactly when there still is room for it. */
  lemma ReopeningIsSafeExactly(s: State, i: nat)
    requires Inv(s) && i < |s.claims| && s.claims[i].lapsed
    ensures StaysCovered(Next(s, Reopens(i))) <==> Room(s, s.claims[i].amount)
  {
    var s1 := Next(s, Reopens(i));
    SumsUpdate(s.claims, i, s.claims[i].(open := true, lapsed := false));
    if Room(s, s.claims[i].amount) {
      StepKeepsInv(s, Reopens(i));
      InvStays(s1);
    } else if StaysCovered(s1) {
      PaidWithinReserved(s.claims);
      StaysOn(s1, SweepMined);
      CoveredNow(Next(s1, SweepMined));
    }
  }

  /** A sweep is sent exactly if the wallet holds more than 400 USDC and more than every open
      top-up claims, and leaves behind just the larger of 200 USDC and those claims. */
  lemma SweepsExactly(s: State)
    requires s.sweeping == 0
    ensures var t, owed := Next(s, SweepSent), Reserved(s.claims);
            && t.claims == s.claims && t.float == s.float
            && (t.sweeping > 0 <==> s.float > 400000000 && s.float > owed)
            && (t.sweeping > 0 ==> s.float - t.sweeping == if owed > 200000000 then owed else 200000000)
  {}

  /** The gate sells exactly what the wallet covers beside everything sold before, and a sale
      that goes through ends with its amount paid out of the wallet and nothing reserved. */
  lemma SaleRunsThrough(s: State, a: nat)
    requires 0 < a
    ensures |Next(s, Sell(a)).claims| > |s.claims| <==> Reserved(s.claims) + a <= s.float
    ensures Reserved(s.claims) + a <= s.float ==>
              var n, sold := |s.claims|, Next(s, Sell(a));
              var t := Next(Next(Next(sold, Commit(n)), Mines(n)), Completes(n));
              && Reserved(sold.claims) == Reserved(s.claims) + a
              && |t.claims| == n + 1 && t.claims[..n] == s.claims && t.claims[n] == Claim(a, false, Paid, false)
              && t.float == s.float - a && t.sweeping == s.sweeping && Reserved(t.claims) == Reserved(s.claims)
  {
    if Reserved(s.claims) + a <= s.float {
      var n, sold := |s.claims|, Next(s, Sell(a));
      SumsAppend(s.claims, Claim(a, true, NoDeposit, false));
      var t := Next(Next(Next(sold, Commit(n)), Mines(n)), Completes(n));
      assert t.claims == s.claims + [Claim(a, false, Paid, false)];
      SumsAppend(s.claims, Claim(a, false, Paid, false));
    }
  }
}
