/** Top-up settlement (relay/billing.js): the company deposit that turns a card payment
    into vault credit. The order record is a write-ahead log in a durable store, the
    process holds a program counter that dies with it, and the chain answers late.
    One event is one stretch of code between two awaits, one chain step, or a crash. */
module Topups {
  import opened Common

  datatype OrderState =
    AwaitingPayment | PendingConfirmations | Crediting | UnderReview | Complete | Expired | Rejected

  predicate Terminal(st: OrderState) { st.Complete? || st.Expired? || st.Rejected? }

  /** Is the hop recorded, or silently refused? */
  predicate Moves(from: OrderState, to: OrderState) {
    from != to && (Terminal(from) ==> from.Expired? && to.UnderReview?)
  }

  /** The deposit record; a transaction is named by its position in the broadcast log. */
  datatype Vault = NoVault | Depositing(hash: Option<nat>) | Failed | Done(tx: nat)

  datatype Plan = Settle | Verify(tx: nat) | Review | Wait

  function TopupPlan(v: Vault, alreadyReviewed: bool): Plan {
    match v
    case NoVault => Settle
    case Failed => Settle
    case Depositing(Some(t)) => Verify(t)
    case Depositing(None) => if alreadyReviewed then Wait else Review
    case Done(_) => Wait
  }

  datatype Rec = Rec(state: OrderState, uncertain: bool, vault: Vault)

  datatype TxStatus = Pending | Mined | Reverted

  /** Where the one in-process settlement of this order stands. */
  datatype Pc =
    | Idle
    | Verifying(tx: nat)      // awaiting the receipt of a recorded hash
    | Checking                // awaiting the vault balance
    | Sending                 // inside the wallet call, nothing broadcast yet
    | Sent(tx: nat)           // broadcast, hash not yet reported to the order
    | Waiting(tx: nat)        // hash recorded, awaiting the receipt

  datatype State = State(
    mem: Rec, disk: Rec, pc: Pc,
    txs: seq<TxStatus>,       // every deposit ever broadcast for this order
    recorded: set<nat>,       // the ones whose hash reached the disk
    clears: nat)              // approvals that wiped a hash-less depositing record

  const Initial := State(Rec(AwaitingPayment, false, NoVault), Rec(AwaitingPayment, false, NoVault),
                         Idle, [], {}, 0)

  datatype Answer = ReceiptMined | ReceiptReverted | InMempool | NeverSeen(late: bool)
  datatype Balance = Unreadable | OverCap | Fits

  datatype Event =
    | CardPaid | UsdcArrives | PendingSeen | ExpirySweep(paid: bool)
    | SettleTopup(key: bool)
    | VerifyAnswer(answer: Answer, key: bool)
    | BalanceAnswer(balance: Balance)
    | Broadcast | HashReported | SendThrows
    | DepositMined | DepositReverts | DepositTimesOut
    | Approve(clearsUncertain: bool) | Reject(clearsUncertain: bool)
    | OtherSave   // another order's record is saved, and the whole store with it
    | Crash
    | ChainMines(tx: nat) | ChainReverts(tx: nat)

  function Flush(s: State): State { s.(disk := s.mem) }

  /** setOrderState: the only writer of `state`; a hop is saved, a refused hop is not. */
  function SetState(s: State, to: OrderState): State {
    if Moves(s.mem.state, to) then Flush(s.(mem := s.mem.(state := to))) else s
  }

  /** Past the plan: derive the vault key, then ask for its balance. */
  function ToBalance(s: State, key: bool): State {
    if key then s.(pc := Checking) else Flush(s).(pc := Idle)
  }

  function OnSettle(s: State, key: bool): State {
    if !s.mem.state.Crediting? || !s.pc.Idle? then s
    else match TopupPlan(s.mem.vault, s.mem.uncertain)
      case Wait => s
      case Review => Flush(s.(mem := s.mem.(uncertain := true)))
      case Verify(t) => s.(pc := Verifying(t))
      case Settle => ToBalance(s, key)
  }

  function OnVerify(s: State, a: Answer, key: bool): State {
    if !s.pc.Verifying? || s.pc.tx >= |s.txs| then s
    else match a
      case ReceiptMined =>
        if s.txs[s.pc.tx] != Mined then s
        else SetState(s.(mem := s.mem.(vault := Done(s.pc.tx)), pc := Idle), Complete)
      case ReceiptReverted =>
        if s.txs[s.pc.tx] != Reverted then s
        else ToBalance(Flush(s.(mem := s.mem.(vault := NoVault))), key)
      case InMempool => s.(pc := Idle)
      case NeverSeen(late) =>
        if late && !s.mem.uncertain then Flush(s.(mem := s.mem.(uncertain := true), pc := Idle))
        else s.(pc := Idle)
  }

  function OnBalance(s: State, b: Balance): State {
    if !s.pc.Checking? then s
    else match b
      case Unreadable => s.(pc := Idle)
      case OverCap => Flush(s.(pc := Idle))
      case Fits => Flush(s.(mem := s.mem.(vault := Depositing(None)), pc := Sending))
  }

  function OnBroadcast(s: State): State {
    if s.pc.Sending? then s.(txs := s.txs + [Pending], pc := Sent(|s.txs|)) else s
  }

  /** The broadcast callback writes into whatever the record is by then; a record an
      approval wiped meanwhile makes it throw, and the settlement is abandoned. */
  function OnHash(s: State): State {
    if !s.pc.Sent? then s
    else if s.mem.vault.Depositing? then
      Flush(s.(mem := s.mem.(vault := Depositing(Some(s.pc.tx))), pc := Waiting(s.pc.tx),
               recorded := s.recorded + {s.pc.tx}))
    else s.(pc := Idle)
  }

  /** The wallet call threw without broadcasting. */
  function OnSendThrows(s: State): State {
    if !s.pc.Sending? then s
    else if s.mem.vault.NoVault? then s.(pc := Idle)
    else Flush(s.(mem := s.mem.(vault := Failed), pc := Idle))
  }

  function OnDepositMined(s: State): State {
    if !s.pc.Waiting? || s.pc.tx >= |s.txs| || s.txs[s.pc.tx] != Mined then s
    else SetState(s.(mem := s.mem.(vault := Done(s.pc.tx)), pc := Idle), Complete)
  }

  function OnDepositReverts(s: State): State {
    if !s.pc.Waiting? || s.pc.tx >= |s.txs| || s.txs[s.pc.tx] != Reverted then s
    else Flush(s.(mem := s.mem.(vault := Failed), pc := Idle))
  }

  /** What an approval does to the record, before any hop. */
  function Cleared(s: State, clearsUncertain: bool): State {
    var v := s.mem.vault;
    var wipes := v.Depositing? && v.hash.None?;
    var mem := s.mem.(uncertain := s.mem.uncertain && !clearsUncertain,
                      vault := if wipes || v.Failed? then NoVault else v);
    Flush(s.(mem := mem, clears := s.clears + if wipes then 1 else 0))
  }

  /** Resolving any review item of this order with "approve". */
  function OnApprove(s: State, clearsUncertain: bool): State {
    var s1 := Cleared(s, clearsUncertain);
    if s1.mem.state.UnderReview? then SetState(s1, Crediting) else s1
  }

  function OnReject(s: State, clearsUncertain: bool): State {
    var s1 := s.(mem := s.mem.(uncertain := s.mem.uncertain && !clearsUncertain));
    if s.mem.state.UnderReview? || s.mem.state.Crediting? then SetState(s1, Rejected) else s1
  }

  function OnCrash(s: State): State { s.(mem := s.disk, pc := Idle) }

  /** The webhook refuses a terminal order; the settlement it starts is its own event. */
  function OnCardPaid(s: State): State {
    if Terminal(s.mem.state) then s else SetState(s, Crediting)
  }

  function OnUsdc(s: State): State {
    if s.mem.state.Complete? || s.mem.state.Rejected? then s else SetState(s, UnderReview)
  }

  function OnExpiry(s: State, paid: bool): State {
    if !s.mem.state.AwaitingPayment? && !s.mem.state.PendingConfirmations? then s
    else SetState(s, if paid then UnderReview else Expired)
  }

  function Next(s: State, e: Event): State {
    match e
    case CardPaid => OnCardPaid(s)
    case UsdcArrives => OnUsdc(s)
    case PendingSeen => if s.mem.state.AwaitingPayment? then SetState(s, PendingConfirmations) else s
    case ExpirySweep(paid) => OnExpiry(s, paid)
    case SettleTopup(key) => OnSettle(s, key)
    case VerifyAnswer(a, key) => OnVerify(s, a, key)
    case BalanceAnswer(b) => OnBalance(s, b)
    case Broadcast => OnBroadcast(s)
    case HashReported => OnHash(s)
    case SendThrows => OnSendThrows(s)
    case DepositMined => OnDepositMined(s)
    case DepositReverts => OnDepositReverts(s)
    case DepositTimesOut => if s.pc.Waiting? then Flush(s.(pc := Idle)) else s
    case Approve(c) => OnApprove(s, c)
    case Reject(c) => OnReject(s, c)
    case OtherSave => Flush(s)
    case Crash => OnCrash(s)
    case ChainMines(t) => if t < |s.txs| && s.txs[t].Pending? then s.(txs := s.txs[t := Mined]) else s
    case ChainReverts(t) => if t < |s.txs| && s.txs[t].Pending? then s.(txs := s.txs[t := Reverted]) else s
  }

  function Run(s: State, es: seq<Event>): State
    decreases |es|
  {
    if es == [] then s else Run(Next(s, es[0]), es[1..])
  }

  // --- counting ----------------------------------------------------------------

  function Count(txs: seq<TxStatus>, p: TxStatus): nat {
    if txs == [] then 0 else Count(txs[..|txs| - 1], p) + if txs[|txs| - 1] == p then 1 else 0
  }

  /** Deposits that moved money, or still might. */
  function Live(txs: seq<TxStatus>): nat { Count(txs, Mined) + Count(txs, Pending) }

  lemma {:induction false} CountUpdate(txs: seq<TxStatus>, t: nat, to: TxStatus, p: TxStatus)
    requires t < |txs|
    ensures Count(txs[t := to], p) == Count(txs, p) - (if txs[t] == p then 1 else 0) + (if to == p then 1 else 0)
  {
    var n := |txs| - 1;
    if t == n {
      assert txs[t := to][..n] == txs[..n];
    } else {
      assert txs[t := to][..n] == txs[..n][t := to];
      CountUpdate(txs[..n], t, to, p);
    }
  }

  lemma CountAppend(txs: seq<TxStatus>, x: TxStatus, p: TxStatus)
    ensures Count(txs + [x], p) == Count(txs, p) + if x == p then 1 else 0
  {
    assert (txs + [x])[..|txs|] == txs;
  }

  // --- the invariant -------------------------------------------------------------

  /** Can this record lead to one more deposit without a human? */
  function Potential(v: Vault, txs: seq<TxStatus>): nat {
    match v
    case NoVault => 1
    case Failed => 1
    case Depositing(None) => 0
    case Depositing(Some(t)) => if t < |txs| && txs[t].Reverted? then 1 else 0
    case Done(_) => 0
  }

  predicate Holds(v: Vault, t: nat) { v == Depositing(Some(t)) || v == Done(t) }

  predicate RecOk(r: Rec, txs: seq<TxStatus>) {
    && (r.vault.Depositing? && r.vault.hash.Some? ==> r.vault.hash.value < |txs|)
    && (r.vault.Done? ==> r.vault.tx < |txs| && txs[r.vault.tx].Mined?)
    && (r.state.Complete? ==> exists t | 0 <= t < |txs| :: txs[t].Mined?)
  }

  predicate PcOk(s: State) {
    var v := s.mem.vault;
    match s.pc
    case Idle => true
    case Verifying(t) => v == Depositing(Some(t)) && t in s.recorded
    case Checking => v.NoVault? || v.Failed?
    case Sending => (v.NoVault? || v == Depositing(None)) && s.disk.vault == v
    case Sent(t) => t < |s.txs| && t !in s.recorded && (v.NoVault? || v == Depositing(None))
    case Waiting(t) => v == Depositing(Some(t)) && t in s.recorded
  }

  predicate Recorded(s: State) {
    && (forall t <- s.recorded :: t < |s.txs| && (s.txs[t].Reverted? || (Holds(s.mem.vault, t) && Holds(s.disk.vault, t))))
    && (s.mem.vault.Depositing? && s.mem.vault.hash.Some? ==> s.mem.vault.hash.value in s.recorded)
    && (s.disk.vault.Depositing? && s.disk.vault.hash.Some? ==> s.disk.vault.hash.value in s.recorded)
  }

  /** A deposit the running wallet call may still make, or whose revert it will record. */
  function InHand(s: State): nat {
    if s.pc.Sending?
       || (s.pc.Sent? && s.mem.vault.Depositing? && s.pc.tx < |s.txs| && s.txs[s.pc.tx].Reverted?) then 1 else 0
  }

  predicate Bounded(s: State) {
    && Live(s.txs) + Potential(s.mem.vault, s.txs) + InHand(s) <= 1 + s.clears
    && Live(s.txs) + Potential(s.disk.vault, s.txs) <= 1 + s.clears
  }

  predicate Inv(s: State) {
    RecOk(s.mem, s.txs) && RecOk(s.disk, s.txs) && PcOk(s) && Recorded(s) && Bounded(s)
  }

  lemma ChainKeepsInv(s: State, t: nat, to: TxStatus)
    requires Inv(s) && t < |s.txs| && s.txs[t].Pending? && !to.Pending?
    ensures Inv(s.(txs := s.txs[t := to]))
  {
    CountUpdate(s.txs, t, to, Mined);
    CountUpdate(s.txs, t, to, Pending);
    var txs := s.txs[t := to];
    forall i | 0 <= i < |s.txs| && s.txs[i].Mined? ensures txs[i].Mined? {}
    if s.mem.vault == Depositing(Some(t)) { assert t in s.recorded; }
    assert Potential(s.mem.vault, txs) <= Potential(s.mem.vault, s.txs) + if to.Reverted? then 1 else 0;
  }

  lemma SetStateKeepsInv(s: State, to: OrderState)
    requires Inv(s)
    requires to.Complete? ==> exists t | 0 <= t < |s.txs| :: s.txs[t].Mined?
    ensures Inv(SetState(s, to))
  {}

  /** A deposit seen mined is written down, and only then is the order complete. */
  lemma DoneKeepsInv(s: State, t: nat)
    requires Inv(s) && s.mem.vault == Depositing(Some(t)) && t < |s.txs| && s.txs[t].Mined?
    ensures Inv(SetState(s.(mem := s.mem.(vault := Done(t)), pc := Idle), Complete))
  {
    SetStateKeepsInv(s.(mem := s.mem.(vault := Done(t)), pc := Idle), Complete);
  }

  lemma BroadcastKeepsInv(s: State)
    requires Inv(s)
    ensures Inv(OnBroadcast(s))
  {
    CountAppend(s.txs, Pending, Mined);
    CountAppend(s.txs, Pending, Pending);
    var txs := s.txs + [Pending];
    forall i | 0 <= i < |s.txs| && s.txs[i].Mined? ensures txs[i].Mined? {}
  }

  lemma ToBalanceKeepsInv(s: State, key: bool)
    requires Inv(s) && (s.mem.vault.NoVault? || s.mem.vault.Failed?) && !s.pc.Sending? && !s.pc.Sent?
    ensures Inv(ToBalance(s, key))
  {}

  lemma SettleKeepsInv(s: State, key: bool)
    requires Inv(s)
    ensures Inv(OnSettle(s, key))
  {
    if s.pc.Idle? && TopupPlan(s.mem.vault, s.mem.uncertain).Settle? { ToBalanceKeepsInv(s, key); }
  }

  lemma VerifyKeepsInv(s: State, a: Answer, key: bool)
    requires Inv(s)
    ensures Inv(OnVerify(s, a, key))
  {
    if s.pc.Verifying? && s.pc.tx < |s.txs| {
      if a.ReceiptMined? && s.txs[s.pc.tx].Mined? { DoneKeepsInv(s, s.pc.tx); }
      if a.ReceiptReverted? && s.txs[s.pc.tx].Reverted? {
        var s1 := Flush(s.(mem := s.mem.(vault := NoVault), pc := Idle));
        assert Inv(s1);
        ToBalanceKeepsInv(s1, key);
      }
    }
  }

  lemma BalanceKeepsInv(s: State, b: Balance)
    requires Inv(s)
    ensures Inv(OnBalance(s, b))
  {}

  lemma DepositKeepsInv(s: State, e: Event)
    requires Inv(s)
    requires e.HashReported? || e.SendThrows? || e.DepositMined? || e.DepositReverts? || e.DepositTimesOut?
    ensures Inv(Next(s, e))
  {
    if e.DepositMined? && s.pc.Waiting? && s.pc.tx < |s.txs| && s.txs[s.pc.tx].Mined? {
      DoneKeepsInv(s, s.pc.tx);
    }
  }

  lemma ClearingKeepsInv(s: State, clearsUncertain: bool)
    requires Inv(s)
    ensures Inv(Cleared(s, clearsUncertain))
  {
    var s1 := Cleared(s, clearsUncertain);
    assert s1.txs == s.txs && s1.pc == s.pc && s1.recorded == s.recorded && s1.mem == s1.disk;
    assert Recorded(s1) by {
      hide RecOk, Bounded, Potential, Live, InHand;
    }
    assert RecOk(s1.mem, s1.txs) && PcOk(s1) by {
      hide Recorded, Bounded;
    }
    hide RecOk, Recorded, PcOk, Live;
  }

  lemma ApproveKeepsInv(s: State, clearsUncertain: bool)
    requires Inv(s)
    ensures Inv(OnApprove(s, clearsUncertain))
  {
    ClearingKeepsInv(s, clearsUncertain);
    SetStateKeepsInv(Cleared(s, clearsUncertain), Crediting);
    hide Inv;
  }

  lemma RejectKeepsInv(s: State, clearsUncertain: bool)
    requires Inv(s)
    ensures Inv(OnReject(s, clearsUncertain))
  {
    SetStateKeepsInv(s.(mem := s.mem.(uncertain := s.mem.uncertain && !clearsUncertain)), Rejected);
  }

  lemma StepKeepsInv(s: State, e: Event)
    requires Inv(s)
    ensures Inv(Next(s, e))
  {
    match e
    case Broadcast => BroadcastKeepsInv(s);
    case ChainMines(t) => if t < |s.txs| && s.txs[t].Pending? { ChainKeepsInv(s, t, Mined); }
    case ChainReverts(t) => if t < |s.txs| && s.txs[t].Pending? { ChainKeepsInv(s, t, Reverted); }
    case SettleTopup(key) => SettleKeepsInv(s, key);
    case VerifyAnswer(a, key) => VerifyKeepsInv(s, a, key);
    case BalanceAnswer(b) => BalanceKeepsInv(s, b);
    case Approve(c) => ApproveKeepsInv(s, c);
    case Reject(c) => RejectKeepsInv(s, c);
    case CardPaid => SetStateKeepsInv(s, Crediting);
    case UsdcArrives => SetStateKeepsInv(s, UnderReview);
    case PendingSeen => SetStateKeepsInv(s, PendingConfirmations);
    case ExpirySweep(paid) => SetStateKeepsInv(s, if paid then UnderReview else Expired);
    case OtherSave =>
    case Crash =>
    case _ => DepositKeepsInv(s, e);
  }

  lemma {:induction false} RunKeepsInv(s: State, es: seq<Event>)
    requires Inv(s)
    ensures Inv(Run(s, es))
    decreases |es|
  {
    if es != [] {
      StepKeepsInv(s, es[0]);
      RunKeepsInv(Next(s, es[0]), es[1..]);
    }
  }

  // --- main results -----------------------------------------------------------------

  /** Over every run, with crashes and reviewer clicks anywhere, the deposits that
      succeeded number at most one plus the approvals that wiped a hash-less record. */
  lemma DepositsBounded(es: seq<Event>)
    ensures Count(Run(Initial, es).txs, Mined) <= 1 + Run(Initial, es).clears
  {
    RunKeepsInv(Initial, es);
  }

  /** A recorded hash is never resent over: whenever a run broadcasts a deposit, every
      deposit whose hash was recorded before has reverted. */
  lemma NeverResendsOverRecordedHash(es: seq<Event>, e: Event)
    ensures var s := Run(Initial, es);
            |Next(s, e).txs| > |s.txs| ==> forall t <- s.recorded :: t < |s.txs| && s.txs[t].Reverted?
  {
    RunKeepsInv(Initial, es);
    hide Run;
    var s := Run(Initial, es);
    OnlyBroadcastSends(s, e);
    if |Next(s, e).txs| > |s.txs| { SendingMeansReverted(s); }
  }

  lemma OnlyBroadcastSends(s: State, e: Event)
    ensures |Next(s, e).txs| > |s.txs| ==> e.Broadcast? && s.pc.Sending?
  {
    hide TopupPlan;
  }

  lemma SendingMeansReverted(s: State)
    requires Inv(s) && s.pc.Sending?
    ensures forall t <- s.recorded :: t < |s.txs| && s.txs[t].Reverted?
  {
    hide Bounded, RecOk;
  }

  /** An order reads "complete" only after one of its deposits was mined. */
  lemma CompleteMeansCredited(es: seq<Event>)
    ensures var s := Run(Initial, es);
            s.mem.state.Complete? ==> exists t | 0 <= t < |s.txs| :: s.txs[t].Mined?
  {
    RunKeepsInv(Initial, es);
  }

  // --- what becomes of an order ----------------------------------------------------------

  /** The only moves between states, each with what may make it. */
  predicate MayMove(s: State, e: Event, to: OrderState) {
    var from := s.mem.state;
    match to
    case AwaitingPayment => false
    case PendingConfirmations => from.AwaitingPayment? && e.PendingSeen?
    case Crediting => (e.CardPaid? && !Terminal(from)) || (e.Approve? && from.UnderReview?)
    case UnderReview => (e.UsdcArrives? && !from.Complete? && !from.Rejected?)
                        || (e == ExpirySweep(true) && (from.AwaitingPayment? || from.PendingConfirmations?))
    case Complete => !Terminal(from) && SeesMined(s, e)
    case Expired => e == ExpirySweep(false) && (from.AwaitingPayment? || from.PendingConfirmations?)
    case Rejected => e.Reject? && (from.UnderReview? || from.Crediting?)
  }

  /** The deposit this order waits for, or looks up again, is reported mined, and is. */
  predicate SeesMined(s: State, e: Event) {
    || (e.DepositMined? && s.pc.Waiting? && s.pc.tx < |s.txs| && s.txs[s.pc.tx].Mined?)
    || (e.VerifyAnswer? && e.answer.ReceiptMined? && s.pc.Verifying? && s.pc.tx < |s.txs| && s.txs[s.pc.tx].Mined?)
  }

  /** Over every run an order moves to a state exactly when one of its causes happens, and the
      disk knows it by then: rejected only by a reviewer, complete exactly when its deposit
      is seen mined. */
  lemma MovesExactly(es: seq<Event>, e: Event, to: OrderState)
    requires Run(Initial, es).mem.state != to
    ensures var s, t := Run(Initial, es), Next(Run(Initial, es), e);
            && (t.mem.state == to <==> MayMove(s, e, to))
            && t.disk.state == t.mem.state
  {
    StateOnDisk(Initial, es);
    var s := Run(Initial, es);
    hide Run;
    MovesOnce(s, e, to);
    StateStaysOnDisk(s, e);
  }

  lemma MovesOnce(s: State, e: Event, to: OrderState)
    requires s.mem.state != to && s.disk.state == s.mem.state
    ensures Next(s, e).mem.state == to <==> MayMove(s, e, to)
  {
    if e.SettleTopup? || e.BalanceAnswer? || e.Broadcast? || e.HashReported? || e.SendThrows? {
      StateUntouched(s, e);
    } else if e.VerifyAnswer? || e.DepositMined? || e.DepositReverts? || e.DepositTimesOut? {
      ReceiptMoves(s, e);
    } else {
      hide OnSettle, OnBalance, OnBroadcast, OnHash, OnSendThrows, OnVerify, OnDepositMined, OnDepositReverts, TopupPlan;
    }
  }

  lemma ReceiptMoves(s: State, e: Event)
    requires e.VerifyAnswer? || e.DepositMined? || e.DepositReverts? || e.DepositTimesOut?
    ensures var t := Next(s, e).mem.state;
            t != s.mem.state ==> t.Complete?
    ensures !s.mem.state.Complete? ==> (Next(s, e).mem.state.Complete? <==> !Terminal(s.mem.state) && SeesMined(s, e))
  {}

  lemma StateUntouched(s: State, e: Event)
    requires e.SettleTopup? || e.BalanceAnswer? || e.Broadcast? || e.HashReported? || e.SendThrows?
    ensures Next(s, e).mem.state == s.mem.state
  {}

  lemma StateStaysOnDisk(s: State, e: Event)
    requires s.disk.state == s.mem.state
    ensures Next(s, e).disk.state == Next(s, e).mem.state
  {
    hide TopupPlan;
  }

  lemma {:induction false} StateOnDisk(s: State, es: seq<Event>)
    requires s.disk.state == s.mem.state
    ensures Run(s, es).disk.state == Run(s, es).mem.state
    decreases |es|
  {
    if es != [] {
      StateStaysOnDisk(s, es[0]);
      hide Next;
      StateOnDisk(Next(s, es[0]), es[1..]);
    }
  }

  /** Paid, with nothing sent yet or a failed deposit behind it. */
  predicate ToDeposit(s: State) {
    s.mem.state.Crediting? && s.pc.Idle? && (s.mem.vault.NoVault? || s.mem.vault.Failed?)
  }

  /** Credited and closed, in memory and on disk, by this transaction. */
  predicate CreditedBy(s: State, t: nat) {
    && t < |s.txs| && s.txs[t].Mined? && s.mem.state.Complete? && s.mem.vault == Done(t)
    && s.disk == s.mem && s.pc.Idle?
  }

  /** Settlement run through: the balance fits, the deposit is broadcast, its hash reported. */
  lemma DepositSent(s: State)
    requires ToDeposit(s)
    ensures var t := After4(s, SettleTopup(true), BalanceAnswer(Fits), Broadcast, HashReported);
            && t.txs == s.txs + [Pending] && t.pc == Waiting(|s.txs|) && t.mem.state.Crediting?
            && t.mem.vault == Depositing(Some(|s.txs|)) && t.disk == t.mem && t.clears == s.clears
  {}

  function After4(s: State, a: Event, b: Event, c: Event, d: Event): State { Next(Next(Next(Next(s, a), b), c), d) }

  /** A paid order whose deposit goes through ends complete, by that very deposit... */
  lemma DepositCompletes(s: State)
    requires ToDeposit(s)
    ensures var n := |s.txs|;
            var sent := After4(s, SettleTopup(true), BalanceAnswer(Fits), Broadcast, HashReported);
            var t := Next(Next(sent, ChainMines(n)), DepositMined);
            CreditedBy(t, n) && |t.txs| == n + 1
  {
    DepositSent(s);
  }

  /** ...also when the process dies with the hash on disk: the next settlement looks the
      recorded deposit up, finds it mined and completes without sending another... */
  lemma DepositCompletesAfterCrash(s: State)
    requires ToDeposit(s)
    ensures var n := |s.txs|;
            var sent := After4(s, SettleTopup(true), BalanceAnswer(Fits), Broadcast, HashReported);
            var t := After4(sent, Crash, ChainMines(n), SettleTopup(true), VerifyAnswer(ReceiptMined, true));
            CreditedBy(t, n) && |t.txs| == n + 1
  {
    DepositSent(s);
    RecordedIsVerified(After4(s, SettleTopup(true), BalanceAnswer(Fits), Broadcast, HashReported), |s.txs|);
  }

  lemma RecordedIsVerified(s: State, n: nat)
    requires s.disk.state.Crediting? && s.disk.vault == Depositing(Some(n)) && n < |s.txs| && s.txs[n].Pending?
    ensures var t := After4(s, Crash, ChainMines(n), SettleTopup(true), VerifyAnswer(ReceiptMined, true));
            CreditedBy(t, n) && |t.txs| == |s.txs|
  {}

  /** ...and one that fails, by a revert seen at once or later, or inside the wallet call, leaves
      an order that can be deposited for again. */
  lemma FailedDepositRetries(s: State)
    requires ToDeposit(s)
    ensures var n := |s.txs|;
            var sending := Next(Next(s, SettleTopup(true)), BalanceAnswer(Fits));
            var sent := Next(Next(sending, Broadcast), HashReported);
            && ToDeposit(Next(sending, SendThrows))
            && ToDeposit(Next(Next(sent, ChainReverts(n)), DepositReverts))
            && var asked := After4(sent, Crash, ChainReverts(n), SettleTopup(true), VerifyAnswer(ReceiptReverted, true));
               asked.pc.Checking? && asked.mem.vault.NoVault?
  {
    DepositSent(s);
    var sent := After4(s, SettleTopup(true), BalanceAnswer(Fits), Broadcast, HashReported);
    RevertedIsRetried(sent, |s.txs|);
  }

  /** A wallet call whose record an approval wiped meanwhile ends without a trace, whether it threw
      or reports its hash: the order is as before the deposit, which is what can credit twice. */
  lemma WipedCallEnds(s: State, c: bool)
    requires ToDeposit(s)
    ensures var sending := Next(Next(s, SettleTopup(true)), BalanceAnswer(Fits));
            var wiped := Next(sending, Approve(c));
            && ToDeposit(Next(wiped, SendThrows))
            && ToDeposit(Next(Next(wiped, Broadcast), HashReported))
  {}

  /** An approval takes off exactly a hash-less or failed record, closes the flag if it is the
      item's, keeps all else of the record, and re-credits exactly an order under review; all of
      it on disk. A rejection keeps the record. */
  lemma ResolvedExactly(s: State, c: bool)
    ensures var t := Next(s, Approve(c));
            && t.disk == t.mem && t.txs == s.txs && t.pc == s.pc
            && t.mem.vault == (if s.mem.vault == Depositing(None) || s.mem.vault == Failed then NoVault else s.mem.vault)
            && (t.mem.uncertain <==> s.mem.uncertain && !c)
            && t.mem.state == if s.mem.state == UnderReview then Crediting else s.mem.state
    ensures var t := Next(s, Reject(c));
            t.mem.vault == s.mem.vault && (t.mem.uncertain <==> s.mem.uncertain && !c) && t.txs == s.txs && t.pc == s.pc
  {}

  /** What decides nothing changes nothing: a balance that cannot be read, or that leaves no room
      under the vault's cap, and a deposit still in the mempool or not yet missed for long. */
  lemma UndecidedIsAskedAgain(s: State, b: Balance, a: Answer, n: nat)
    requires s.disk == s.mem && s.mem.state.Crediting? && s.pc.Idle?
    ensures ToDeposit(s) && !b.Fits? ==> Next(Next(s, SettleTopup(true)), BalanceAnswer(b)) == s
    ensures s.mem.vault == Depositing(Some(n)) && n < |s.txs| && (a.InMempool? || a == NeverSeen(false)) ==>
              Next(Next(s, SettleTopup(true)), VerifyAnswer(a, true)) == s
    ensures s.mem.vault == Depositing(Some(n)) ==> Next(s.(pc := Waiting(n)), DepositTimesOut) == s
  {}

  lemma RevertedIsRetried(s: State, n: nat)
    requires s.disk == s.mem && s.pc == Waiting(n)
    requires s.disk.state.Crediting? && s.disk.vault == Depositing(Some(n)) && n < |s.txs| && s.txs[n].Pending?
    ensures ToDeposit(Next(Next(s, ChainReverts(n)), DepositReverts))
    ensures var asked := After4(s, Crash, ChainReverts(n), SettleTopup(true), VerifyAnswer(ReceiptReverted, true));
            asked.pc.Checking? && asked.mem.vault.NoVault?
  {}

  /** A reviewer is called exactly when a settlement meets the hash-less mark, or looks up a
      recorded deposit that no node has known for too long: once, until a review clears it. */
  lemma FlaggedExactly(s: State, e: Event)
    requires !s.mem.uncertain
    ensures var t := Next(s, e);
            t.mem.uncertain && !e.Crash?
            <==> (e.SettleTopup? && s.pc.Idle? && s.mem.state.Crediting? && s.mem.vault == Depositing(None))
                 || (e.VerifyAnswer? && e.answer == NeverSeen(true) && s.pc.Verifying? && s.pc.tx < |s.txs|)
    ensures Next(s, e).mem.uncertain && !e.Crash? ==> Next(s, e).disk.uncertain && Next(s, e).txs == s.txs && Next(s, e).pc.Idle?
  {
    if e.SettleTopup? || e.VerifyAnswer? {
      hide OnBalance, OnBroadcast, OnHash, OnSendThrows, OnApprove, OnReject;
    } else {
      hide OnSettle, OnVerify;
    }
  }

  // --- which orders need a reviewer --------------------------------------------------------

  /** No reviewer takes part. */
  predicate Unaided(es: seq<Event>) { forall i | 0 <= i < |es| :: !es[i].Approve? && !es[i].Reject? }

  /** A paid order at rest, after a restart, say. */
  predicate AtRest(s: State) { s.mem.state.Crediting? && s.pc.Idle? && s.disk == s.mem && !s.mem.vault.Done? }

  /** Such an order can still complete without a reviewer exactly if its record is not the
      hash-less one: that mark alone says a deposit may be out there under no known hash. */
  lemma CompletesUnaidedExactly(s: State)
    requires Inv(s) && AtRest(s)
    ensures (exists es :: Unaided(es) && Run(s, es).mem.state.Complete?) <==> s.mem.vault != Depositing(None)
  {
    if s.mem.vault == Depositing(None) {
      forall es | Unaided(es) ensures !Run(s, es).mem.state.Complete? { WaitsForReviewer(s, es); }
    } else if s.mem.vault.Depositing? {
      VerifiesRecorded(s, s.mem.vault.hash.value);
    } else {
      DepositCompletes(s);
      hide Next, Run, ToDeposit;
      var es := [SettleTopup(true), BalanceAnswer(Fits), Broadcast, HashReported, ChainMines(|s.txs|), DepositMined];
      RunSix(s, es[0], es[1], es[2], es[3], es[4], es[5]);
    }
  }

  lemma {:induction false} WaitsForReviewer(s: State, es: seq<Event>)
    requires Unaided(es) && s.pc.Idle? && s.disk.vault == s.mem.vault == Depositing(None)
    requires !s.mem.state.Complete? && !s.disk.state.Complete?
    ensures !Run(s, es).mem.state.Complete?
    decreases |es|
  {
    if es != [] {
      MarkStays(s, es[0]);
      hide Next;
      assert Unaided(es[1..]) by { assert forall i | 0 <= i < |es[1..]| :: es[1..][i] == es[i + 1]; }
      WaitsForReviewer(Next(s, es[0]), es[1..]);
    }
  }

  lemma MarkStays(s: State, e: Event)
    requires !e.Approve? && !e.Reject? && s.pc.Idle? && s.disk.vault == s.mem.vault == Depositing(None)
    requires !s.mem.state.Complete? && !s.disk.state.Complete?
    ensures var t := Next(s, e);
            && t.pc.Idle? && t.disk.vault == t.mem.vault == Depositing(None)
            && !t.mem.state.Complete? && !t.disk.state.Complete?
  {}

  /** A recorded deposit is looked up: mined, it completes; reverted, it is sent anew. */
  lemma VerifiesRecorded(s: State, n: nat)
    requires Inv(s) && AtRest(s) && s.mem.vault == Depositing(Some(n))
    ensures exists es :: Unaided(es) && Run(s, es).mem.state.Complete?
  {
    if s.txs[n].Reverted? {
      var retry := [SettleTopup(true), VerifyAnswer(ReceiptReverted, true), BalanceAnswer(Fits), Broadcast, HashReported,
                    ChainMines(|s.txs|), DepositMined];
      SentAnew(s, n);
      assert Unaided(retry);
      RunSeven(s, retry[0], retry[1], retry[2], retry[3], retry[4], retry[5], retry[6]);
      assert Run(s, retry).mem.state.Complete?;
    } else {
      var es := [ChainMines(n), SettleTopup(true), VerifyAnswer(ReceiptMined, true), OtherSave];
      FoundMined(s, n);
      assert Unaided(es);
      RunFour(s, es[0], es[1], es[2], es[3]);
    }
  }

  lemma FoundMined(s: State, n: nat)
    requires AtRest(s) && s.mem.vault == Depositing(Some(n)) && n < |s.txs| && !s.txs[n].Reverted?
    ensures After4(s, ChainMines(n), SettleTopup(true), VerifyAnswer(ReceiptMined, true), OtherSave).mem.state.Complete?
  {}

  lemma SentAnew(s: State, n: nat)
    requires AtRest(s) && s.mem.vault == Depositing(Some(n)) && n < |s.txs| && s.txs[n].Reverted?
    ensures var sent := Next(After4(s, SettleTopup(true), VerifyAnswer(ReceiptReverted, true), BalanceAnswer(Fits), Broadcast),
                             HashReported);
            Next(Next(sent, ChainMines(|s.txs|)), DepositMined).mem.state.Complete?
  {
    var asked := Next(Next(s, SettleTopup(true)), VerifyAnswer(ReceiptReverted, true));
    assert asked.pc.Checking? && asked.mem.state.Crediting? && asked.txs == s.txs;
    hide Next;
    CheckedCompletes(asked);
  }

  lemma CheckedCompletes(s: State)
    requires s.pc.Checking? && s.mem.state.Crediting?
    ensures var sent := Next(Next(Next(s, BalanceAnswer(Fits)), Broadcast), HashReported);
            Next(Next(sent, ChainMines(|s.txs|)), DepositMined).mem.state.Complete?
  {
    var sent := Next(Next(Next(s, BalanceAnswer(Fits)), Broadcast), HashReported);
    assert sent.pc == Waiting(|s.txs|) && sent.txs == s.txs + [Pending] && sent.mem.state.Crediting?;
  }

  lemma RunFour(s: State, a: Event, b: Event, c: Event, d: Event)
    ensures Run(s, [a, b, c, d]) == After4(s, a, b, c, d)
  {
    hide Next;
    RunAndThen(s, [], a);
    RunAndThen(s, [a], b);
    RunAndThen(s, [a, b], c);
    RunAndThen(s, [a, b, c], d);
    assert [] + [a] == [a] && [a] + [b] == [a, b] && [a, b] + [c] == [a, b, c] && [a, b, c] + [d] == [a, b, c, d];
  }

  lemma RunSix(s: State, a: Event, b: Event, c: Event, d: Event, e: Event, f: Event)
    ensures Run(s, [a, b, c, d, e, f]) == Next(Next(After4(s, a, b, c, d), e), f)
  {
    hide Next;
    RunFour(s, a, b, c, d);
    RunAndThen(s, [a, b, c, d], e);
    RunAndThen(s, [a, b, c, d, e], f);
    assert [a, b, c, d] + [e] == [a, b, c, d, e] && [a, b, c, d, e] + [f] == [a, b, c, d, e, f];
  }

  lemma RunSeven(s: State, a: Event, b: Event, c: Event, d: Event, e: Event, f: Event, g: Event)
    ensures Run(s, [a, b, c, d, e, f, g]) == Next(Next(Next(After4(s, a, b, c, d), e), f), g)
  {
    hide Next;
    RunSix(s, a, b, c, d, e, f);
    RunAndThen(s, [a, b, c, d, e, f], g);
    assert [a, b, c, d, e, f] + [g] == [a, b, c, d, e, f, g];
  }

  // --- when an approval is safe ----------------------------------------------------------

  /** Until another approval wipes a hash-less record, at most one deposit is ever mined. */
  ghost predicate CreditsOnce(s: State) {
    forall es: seq<Event> | Run(s, es).clears == s.clears :: Count(Run(s, es).txs, Mined) <= 1
  }

  lemma CreditsOnceNow(s: State)
    requires CreditsOnce(s)
    ensures Count(s.txs, Mined) <= 1
  {
    assert Run(s, []) == s;
  }

  lemma CreditsOnceOn(s: State, e: Event)
    requires CreditsOnce(s) && Next(s, e).clears == s.clears
    ensures CreditsOnce(Next(s, e))
  {
    var t := Next(s, e);
    forall es: seq<Event> | Run(t, es).clears == t.clears ensures Count(Run(t, es).txs, Mined) <= 1 {
      assert ([e] + es)[1..] == es;
      assert Run(s, [e] + es) == Run(t, es);
    }
  }

  function Shifted(s: State, d: nat): State { s.(clears := s.clears + d) }

  /** The count of clearing approvals only records; nothing reads it. */
  lemma {:induction false} ClearsShift(s: State, d: nat, es: seq<Event>)
    ensures Run(Shifted(s, d), es) == Shifted(Run(s, es), d)
    decreases |es|
  {
    if es != [] {
      ClearsShiftStep(s, d, es[0]);
      hide Next, Shifted;
      ClearsShift(Next(s, es[0]), d, es[1..]);
    }
  }

  lemma ClearsShiftStep(s: State, d: nat, e: Event)
    ensures Next(Shifted(s, d), e) == Shifted(Next(s, e), d)
  {
    match e
    case SettleTopup(key) => SettleShift(s, d, key);
    case VerifyAnswer(a, key) => VerifyShift(s, d, a, key);
    case Approve(c) => ApproveShift(s, d, c);
    case Reject(c) => RejectShift(s, d, c);
    case _ => hide OnSettle, OnVerify, OnApprove, OnReject;
  }

  lemma SettleShift(s: State, d: nat, key: bool)
    ensures OnSettle(Shifted(s, d), key) == Shifted(OnSettle(s, key), d)
  {}

  lemma VerifyShift(s: State, d: nat, a: Answer, key: bool)
    ensures OnVerify(Shifted(s, d), a, key) == Shifted(OnVerify(s, a, key), d)
  {}

  lemma ApproveShift(s: State, d: nat, c: bool)
    ensures OnApprove(Shifted(s, d), c) == Shifted(OnApprove(s, c), d)
  {}

  lemma RejectShift(s: State, d: nat, c: bool)
    ensures OnReject(Shifted(s, d), c) == Shifted(OnReject(s, c), d)
  {}

  /** A wiped record beside a deposit that moved money, or still may: crash, settle again,
      and both are mined. */
  lemma SecondDeposit(s: State)
    requires s.disk.vault.NoVault? && s.disk.state.Crediting? && Live(s.txs) > 0
    ensures !CreditsOnce(s)
  {
    if CreditsOnce(s) {
      var sending := SendsAgain(s);
      hide Next, CreditsOnce;
      Broadcasts(sending);
      CreditsOnceOn(sending, Broadcast);
      var n, sent := |s.txs|, Next(sending, Broadcast);
      CountAppend(s.txs, Pending, Mined);
      CountAppend(s.txs, Pending, Pending);
      var both := MinesIt(sent, n);
      if Count(s.txs, Mined) == 0 {
        var t := SomeTx(s.txs, Pending);
        assert both.txs[t].Pending?;
        both := MinesIt(both, t);
      }
      CreditsOnceNow(both);
    }
  }

  /** Crash, and settle anew up to the wallet call. */
  lemma SendsAgain(s: State) returns (t: State)
    requires CreditsOnce(s) && s.disk.vault.NoVault? && s.disk.state.Crediting?
    ensures CreditsOnce(t) && t.pc.Sending? && t.txs == s.txs
  {
    hide CreditsOnce;
    CreditsOnceOn(s, Crash);
    t := Next(s, Crash);
    CreditsOnceOn(t, SettleTopup(true));
    t := Next(t, SettleTopup(true));
    CreditsOnceOn(t, BalanceAnswer(Fits));
    t := Next(t, BalanceAnswer(Fits));
  }

  lemma Broadcasts(s: State)
    requires s.pc.Sending?
    ensures Next(s, Broadcast) == s.(txs := s.txs + [Pending], pc := Sent(|s.txs|))
  {}

  lemma MinesIt(s: State, t: nat) returns (s': State)
    requires CreditsOnce(s) && t < |s.txs| && s.txs[t].Pending?
    ensures CreditsOnce(s') && s'.txs == s.txs[t := Mined]
    ensures Count(s'.txs, Mined) == Count(s.txs, Mined) + 1
  {
    hide CreditsOnce;
    CreditsOnceOn(s, ChainMines(t));
    s' := Next(s, ChainMines(t));
    CountUpdate(s.txs, t, Mined, Mined);
  }

  lemma {:induction false} SomeTx(txs: seq<TxStatus>, p: TxStatus) returns (t: nat)
    requires Count(txs, p) > 0
    ensures t < |txs| && txs[t] == p
  {
    if txs[|txs| - 1] == p { t := |txs| - 1; } else { t := SomeTx(txs[..|txs| - 1], p); }
  }

  /** Approving a hash-less record under review is safe for all futures exactly when no
      deposit of the order is mined or in the mempool and none is inside the wallet call. */
  lemma ApprovalIsSafeExactly(s: State, clearsUncertain: bool)
    requires Inv(s) && s.mem.vault == Depositing(None)
    requires s.mem.state.UnderReview? || s.mem.state.Crediting?
    ensures CreditsOnce(OnApprove(s, clearsUncertain)) <==> Live(s.txs) == 0 && !s.pc.Sending?
  {
    var s1 := OnApprove(s, clearsUncertain);
    ApproveKeepsInv(s, clearsUncertain);
    assert s1.mem == s1.disk && s1.mem.vault.NoVault? && s1.mem.state.Crediting? && s1.txs == s.txs && s1.pc == s.pc;
    if Live(s.txs) > 0 {
      SecondDeposit(s1);
    } else if s.pc.Sending? {
      if CreditsOnce(s1) {
        BroadcastKeepsInv(s1);
        CreditsOnceOn(s1, Broadcast);
        CountAppend(s1.txs, Pending, Pending);
        SecondDeposit(Next(s1, Broadcast));
      }
    } else {
      ApprovedIdle(s1);
    }
  }

  lemma ApprovedIdle(s: State)
    requires Inv(s) && Live(s.txs) == 0 && s.mem.vault.NoVault? && s.disk.vault.NoVault? && !s.pc.Sending?
    ensures CreditsOnce(s)
  {
    var s0 := s.(clears := 0);
    assert Inv(s0);
    forall es: seq<Event> | Run(s, es).clears == s.clears ensures Count(Run(s, es).txs, Mined) <= 1 {
      RunKeepsInv(s0, es);
      ClearsShift(s0, s.clears, es);
    }
  }

  // --- the bound is reached -----------------------------------------------------------------

  lemma {:induction false} RunAndThen(s: State, es: seq<Event>, e: Event)
    ensures Run(s, es + [e]) == Next(Run(s, es), e)
    decreases |es|
  {
    if es == [] {
      assert [] + [e] == [e] && [e][1..] == [];
    } else {
      assert (es + [e])[1..] == es[1..] + [e];
      RunAndThen(Next(s, es[0]), es[1..], e);
    }
  }

  /** n deposits mined, each over an approval of an older review item that landed while the
      wallet call was running, and the next settlement already at its balance read. */
  predicate Spent(s: State, n: nat) {
    && s.mem == Rec(Crediting, false, NoVault) && s.pc.Checking?
    && s.clears == n && |s.txs| == n && Count(s.txs, Mined) == n
  }

  lemma Then(es: seq<Event>, e: Event) returns (all: seq<Event>)
    ensures Run(Initial, all) == Next(Run(Initial, es), e)
    ensures !e.Crash? && Crash !in es ==> Crash !in all
  {
    RunAndThen(Initial, es, e);
    all := es + [e];
  }

  predicate Overtaken(s: State, n: nat) {
    && s.mem == Rec(Crediting, false, NoVault) && s.pc.Sending?
    && s.clears == n + 1 && |s.txs| == n && Count(s.txs, Mined) == n
  }

  lemma Overtakes(s: State, n: nat)
    requires Spent(s, n)
    ensures Overtaken(Next(Next(s, BalanceAnswer(Fits)), Approve(false)), n)
  {}

  lemma MinesAnyway(s: State, n: nat)
    requires Overtaken(s, n)
    ensures Spent(Next(Next(Next(Next(s, Broadcast), ChainMines(n)), HashReported), SettleTopup(true)), n + 1)
  {
    CountAppend(s.txs, Pending, Mined);
    CountUpdate(s.txs + [Pending], n, Mined, Mined);
    var b := Next(Next(s, Broadcast), ChainMines(n));
    assert b.pc == Sent(n) && b.mem == s.mem && |b.txs| == n + 1 && Count(b.txs, Mined) == n + 1;
  }

  lemma {:induction false} SpendAll(n: nat) returns (es: seq<Event>)
    ensures Spent(Run(Initial, es), n) && Crash !in es
  {
    hide Run, Next, Spent, Overtaken;
    if n == 0 {
      es := StartPaid();
    } else {
      es := SpendAll(n - 1);
      Overtakes(Run(Initial, es), n - 1);
      es := Then(es, BalanceAnswer(Fits));
      es := Then(es, Approve(false));
      MinesAnyway(Run(Initial, es), n - 1);
      es := Then(es, Broadcast);
      es := Then(es, ChainMines(n - 1));
      es := Then(es, HashReported);
      es := Then(es, SettleTopup(true));
    }
  }

  lemma StartPaid() returns (es: seq<Event>)
    ensures Spent(Run(Initial, es), 0) && Crash !in es
  {
    assert Run(Initial, []) == Initial;
    es := Then([], CardPaid);
    es := Then(es, SettleTopup(true));
  }

  /** The approvals in the bound are needed, every one of them and without any crash: wiping
      the record under a running wallet call credits the order once more each time. */
  lemma BoundIsReached(n: nat) returns (es: seq<Event>)
    ensures Crash !in es
    ensures Run(Initial, es).clears == n && Count(Run(Initial, es).txs, Mined) == 1 + n
  {
    hide Run, Next;
    es := SpendAll(n);
    MinesOnce(Run(Initial, es), n);
    es := Then(es, BalanceAnswer(Fits));
    es := Then(es, Broadcast);
    es := Then(es, ChainMines(n));
  }

  lemma MinesOnce(s: State, n: nat)
    requires Spent(s, n)
    ensures var t := Next(Next(Next(s, BalanceAnswer(Fits)), Broadcast), ChainMines(n));
            t.clears == n && Count(t.txs, Mined) == n + 1
  {
    CountAppend(s.txs, Pending, Mined);
    CountUpdate(s.txs + [Pending], n, Mined, Mined);
  }

  // --- the order record, updated in place -----------------------------------------------

  /** The record as the handlers update it. Each method is one stretch of code between
      awaits and is proved to be that step of the machine above. */
  class TopupOrder {
    var state: OrderState
    var uncertain: bool
    var vault: Vault
    var onDisk: Rec
    var pc: Pc
    ghost var txs: seq<TxStatus>
    ghost var recorded: set<nat>
    ghost var clears: nat

    ghost function View(): State
      reads this
    {
      State(Rec(state, uncertain, vault), onDisk, pc, txs, recorded, clears)
    }

    constructor ()
      ensures View() == Initial
    {
      state, uncertain, vault, pc := AwaitingPayment, false, NoVault, Idle;
      onDisk := Rec(AwaitingPayment, false, NoVault);
      txs, recorded, clears := [], {}, 0;
    }

    method Save()
      modifies this`onDisk
      ensures View() == Flush(old(View()))
    {
      onDisk := Rec(state, uncertain, vault);
    }

    method SetOrderState(to: OrderState)
      modifies this`state, this`onDisk
      ensures View() == SetState(old(View()), to)
    {
      if state == to { return; }
      if (state.Complete? || state.Expired? || state.Rejected?) && !(state == Expired && to == UnderReview) { return; }
      state := to;
      Save();
    }

    /** Past the plan or past a reverted deposit: the vault key, then the balance read. */
    method AskBalance(key: bool)
      modifies this
      ensures View() == ToBalance(old(View()), key)
    {
      if key {
        pc := Checking;
      } else {
        Save();
        pc := Idle;
      }
    }

    method Settle(key: bool)
      modifies this
      ensures View() == Next(old(View()), SettleTopup(key))
    {
      if state != Crediting || pc != Idle { return; }
      match TopupPlan(vault, uncertain)
      case Wait =>
      case Review =>
        uncertain := true;
        Save();
      case Verify(t) => pc := Verifying(t);
      case Settle => AskBalance(key);
    }

    /** verifyDeposit's continuation; the chain is believed about a receipt. */
    method VerifyDeposit(answer: Answer, key: bool)
      requires pc.Verifying? && pc.tx < |txs|
      requires answer.ReceiptMined? ==> txs[pc.tx] == Mined
      requires answer.ReceiptReverted? ==> txs[pc.tx] == Reverted
      modifies this
      ensures View() == Next(old(View()), VerifyAnswer(answer, key))
    {
      match answer
      case ReceiptMined =>
        vault := Done(pc.tx);
        pc := Idle;
        SetOrderState(Complete);
      case ReceiptReverted =>
        vault := NoVault;
        Save();
        AskBalance(key);
      case InMempool => pc := Idle;
      case NeverSeen(late) =>
        if late && !uncertain {
          uncertain := true;
          pc := Idle;
          Save();
        } else {
          pc := Idle;
        }
    }

    method BalanceRead(balance: Balance)
      requires pc.Checking?
      modifies this
      ensures View() == Next(old(View()), BalanceAnswer(balance))
    {
      match balance
      case Unreadable => pc := Idle;
      case OverCap =>
        pc := Idle;
        Save();
      case Fits =>
        vault := Depositing(None);
        pc := Sending;
        Save();
    }

    /** The callback handed to the wallet: `order.vault.txHash = hash; flush()`. */
    method OnBroadcastHash()
      requires pc.Sent?
      modifies this
      ensures View() == Next(old(View()), HashReported)
    {
      if vault.Depositing? {
        vault := Depositing(Some(pc.tx));
        recorded := recorded + {pc.tx};
        pc := Waiting(pc.tx);
        Save();
      } else {
        pc := Idle;   // writing through a wiped record throws
      }
    }

    /** The wait for the deposit's receipt ends: mined, reverted, or without a verdict. */
    method DepositSettles(verdict: Option<bool>)
      requires pc.Waiting? && pc.tx < |txs|
      requires verdict == Some(true) ==> txs[pc.tx] == Mined
      requires verdict == Some(false) ==> txs[pc.tx] == Reverted
      modifies this
      ensures View() == Next(old(View()), match verdict case None => DepositTimesOut
                                          case Some(ok) => if ok then DepositMined else DepositReverts)
    {
      match verdict
      case None =>
        pc := Idle;
        Save();
      case Some(ok) =>
        if ok {
          vault := Done(pc.tx);
          pc := Idle;
          SetOrderState(Complete);
        } else {
          vault := Failed;
          pc := Idle;
          Save();
        }
    }

    /** Resolving a review item of this order. */
    method Resolve(approve: bool, itemIsUncertain: bool)
      modifies this
      ensures View() == Next(old(View()), if approve then Approve(itemIsUncertain) else Reject(itemIsUncertain))
    {
      hide OnSettle, OnVerify, OnBalance, OnHash, OnSendThrows, OnDepositMined, OnDepositReverts, OnUsdc, OnExpiry;
      if itemIsUncertain { uncertain := false; }
      if approve {
        if vault.Failed? || vault == Depositing(None) {
          if vault.Depositing? { clears := clears + 1; }
          vault := NoVault;
        }
        Save();
        if state == UnderReview { SetOrderState(Crediting); }
      } else if state == UnderReview || state == Crediting {
        SetOrderState(Rejected);
      }
    }
  }
}
