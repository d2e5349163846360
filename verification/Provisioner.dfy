/** The provisioner (relay/provisioner.js): one serial worker turns paid orders into
    on-chain create() and fund() transactions, with write-ahead steps on the order.
    One event is one stretch of code between awaits, one chain step, or a crash.
    Transactions are named by their position in the broadcast log, and a deployment by
    the create transaction that made it. */
module Provisioner {
  import opened Common

  datatype Status = Pending | Success | Reverted | Dropped   // Dropped: will never mine
  datatype Kind = CreateTx | FundTx(dep: nat, amount: nat)
  datatype Tx = Tx(order: nat, kind: Kind, status: Status)

  datatype Step = Creating | Funding | Finished
  datatype Provision = Provision(step: Step, txCreate: Option<nat>, dep: Option<nat>, txFund: Option<nat>)

  /** `ready` stands for the state confirmed_provisioning. */
  datatype Rec = Rec(prov: Option<Provision>, quote: nat, paid: nat, ready: bool)

  /** A receipt, a transaction still in the mempool, or nothing known. */
  datatype Receipt = Receipt(ok: bool) | InMempool | Unknown

  datatype Plan = SendCreate | Hold | Fund | SendFund | Complete | AdoptOrResend

  function PlanRecovery(p: Option<Provision>, create: Receipt, fund: Receipt): Plan {
    match p
    case None => SendCreate
    case Some(p) =>
      match p.step
      case Creating =>
        if p.txCreate.None? then SendCreate
        else (match create
              case InMempool => Hold
              case Unknown => AdoptOrResend
              case Receipt(ok) => if ok then Fund else SendCreate)
      case Funding =>
        if p.dep.None? then AdoptOrResend
        else if p.txFund.None? then SendFund
        else (match fund
              case InMempool => Hold
              case Unknown => SendFund
              case Receipt(ok) => if ok then Complete else SendFund)
      case Finished => Complete
  }

  /** What arrived, capped at the quote; a card order funds the quote. */
  function Amount(r: Rec): nat {
    if r.paid == 0 then r.quote else if r.paid < r.quote then r.paid else r.quote
  }

  datatype Pc =
    | Planning | Adopting | ToCreate | CreateSending | CreateSent(tx: nat) | AwaitCreate(tx: nat)
    | FundCheck | ToFund | FundSent(tx: nat) | AwaitFund(tx: nat)

  /** An attempt keeps what had arrived when it was planned, and the amount made of it. */
  datatype Worker = Idle | Busy(order: nat, paid: nat, amount: nat, pc: Pc)

  function Attempt(o: nat, r: Rec, pc: Pc): Worker { Busy(o, r.paid, Amount(r), pc) }

  /** Per order, what the write-ahead records cannot make up for: broadcasts whose hash never
      reached the disk, and sends over a recorded hash that the RPC denied although it was
      mined or in the mempool. */
  datatype Tally = Tally(lostFunds: nat, deniedFunds: nat, lostCreates: nat, deniedCreates: nat)

  const NoMiss := Tally(0, 0, 0, 0)

  datatype State = State(mem: seq<Rec>, disk: seq<Rec>, worker: Worker, txs: seq<Tx>, tally: seq<Tally>)

  const Initial := State([], [], Idle, [], [])

  datatype Event =
    | NewOrder(quote: nat) | Payment(order: nat, amount: nat) | SetReady(order: nat, ready: bool)
    | Begin(order: nat)
    | PlanAnswer(create: Receipt, fund: Receipt)
    | Scan(logs: Option<set<nat>>)
    | WriteAhead | BroadcastCreate | RecordCreate | CreateReceipt(ok: bool)
    | FundAnswer(fund: Receipt)
    | BroadcastFund | RecordFund | FundReceipt(ok: bool)
    | Throws      // an RPC error, a timeout or a failed guard ends the attempt
    | Crash
    | ChainSettles(tx: nat, status: Status)

  /** Is the answer one the RPC may give about this hash? A receipt is believed; a mempool
      answer may be stale; and any hash, mined or not, may come back unknown, since two
      failing lookups read the same as none. */
  predicate Answers(txs: seq<Tx>, h: Option<nat>, r: Receipt) {
    match h
    case None => r.Unknown?
    case Some(t) =>
      t < |txs| && match r
                   case Receipt(ok) => txs[t].status == if ok then Success else Reverted
                   case InMempool => true
                   case Unknown => true
  }

  function Flush(s: State): State { s.(disk := s.mem) }

  function Put(s: State, o: nat, r: Rec): State
    requires o < |s.mem|
  {
    Flush(s.(mem := s.mem[o := r]))
  }

  function At(s: State, pc: Pc): State
    requires s.worker.Busy?
  {
    s.(worker := s.worker.(pc := pc))
  }

  function Mapped(rs: seq<Rec>): set<nat> {
    set o | 0 <= o < |rs| && rs[o].prov.Some? && rs[o].prov.value.dep.Some? :: rs[o].prov.value.dep.value
  }

  function HashOf(p: Option<Provision>, fund: bool): Option<nat> {
    if p.None? then None else if fund then p.value.txFund else p.value.txCreate
  }

  function OnPlan(s: State, create: Receipt, fund: Receipt): State
    requires s.worker.Busy? && s.worker.order < |s.mem|
  {
    var p := s.mem[s.worker.order].prov;
    if !Answers(s.txs, HashOf(p, false), create) || !Answers(s.txs, HashOf(p, true), fund) then s
    else match PlanRecovery(p, create, fund)
      case Hold => s.(worker := Idle)
      case SendCreate => At(s, ToCreate)
      case AdoptOrResend => At(s, Adopting)
      case _ => At(s, FundCheck)
  }

  /** adoptOrphanCreate: exactly one unmapped Created log is taken to be this order's. */
  function OnScan(s: State, logs: Option<set<nat>>): State
    requires s.worker.Busy? && s.worker.order < |s.mem|
  {
    var o := s.worker.order;
    match logs
    case None => At(s, ToCreate)
    case Some(seen) =>
      if exists t <- seen :: t >= |s.txs| || !s.txs[t].kind.CreateTx? || !s.txs[t].status.Success? then s
      else
        var orphans := seen - Mapped(s.mem);
        if |orphans| > 1 then s.(worker := Idle)
        else if orphans == {} then At(s, ToCreate)
        else
          var t := Sole(orphans);
          var r := s.mem[o].(prov := Some(Provision(Funding, Some(t), Some(t), HashOf(s.mem[o].prov, true))));
          Put(s, o, r).(worker := Attempt(o, r, Planning))
  }

  function Sole(ts: set<nat>): (t: nat)
    requires |ts| == 1
    ensures ts == {t}
  {
    SoleExists(ts);
    var t :| ts == {t};
    t
  }

  lemma SoleExists(ts: set<nat>)
    requires |ts| == 1
    ensures exists t: nat :: ts == {t}
  {
    var t :| t in ts;
    assert |ts - {t}| == 0;
    assert ts == {t};
  }

  function OnCreateReceipt(s: State, t: nat, ok: bool): State
    requires s.worker.Busy? && s.worker.order < |s.mem|
  {
    var o := s.worker.order;
    if t >= |s.txs| || s.txs[t].status != (if ok then Success else Reverted) then s
    else if !ok then s.(worker := Idle)
    else match s.mem[o].prov
      case None => s.(worker := Idle)
      case Some(p) => At(Put(s, o, s.mem[o].(prov := Some(p.(dep := Some(t), step := Funding)))), FundCheck)
  }

  function Finish(s: State): State
    requires s.worker.Busy? && s.worker.order < |s.mem|
  {
    var o := s.worker.order;
    match s.mem[o].prov
    case None => s.(worker := Idle)
    case Some(p) => Put(s, o, s.mem[o].(prov := Some(p.(step := Finished)), ready := false)).(worker := Idle)
  }

  function OnFundAnswer(s: State, fund: Receipt): State
    requires s.worker.Busy? && s.worker.order < |s.mem|
  {
    var p := s.mem[s.worker.order].prov;
    if p.None? || p.value.dep.None? then s.(worker := Idle)          // "no deploymentId to fund"
    else if !Answers(s.txs, p.value.txFund, fund) then s
    else if fund.InMempool? then s.(worker := Idle)
    else if PlanRecovery(p, Unknown, fund) == Complete then Finish(s)
    else At(s, ToFund)
  }

  /** A hash that moved nothing and never will. */
  predicate Dead(txs: seq<Tx>, h: Option<nat>) {
    h.None? || (h.value < |txs| && (txs[h.value].status.Reverted? || txs[h.value].status.Dropped?))
  }

  function OnBroadcastFund(s: State): State
    requires s.worker.Busy? && s.worker.order < |s.mem|
  {
    var o := s.worker.order;
    match s.mem[o].prov
    case Some(Provision(_, _, Some(d), h)) =>
      var sent := s.(txs := s.txs + [Tx(o, FundTx(d, s.worker.amount), Pending)]);
      At(Count(sent, o, if Dead(s.txs, h) then NoMiss else NoMiss.(deniedFunds := 1)), FundSent(|s.txs|))
    case _ => s.(worker := Idle)
  }

  function OnWriteAhead(s: State): State
    requires s.worker.Busy? && s.worker.order < |s.mem|
  {
    var o, r := s.worker.order, s.mem[s.worker.order];
    var put := Put(s, o, r.(prov := Some(Provision(Creating, None, None, None))));
    At(Count(put, o, if Dead(s.txs, HashOf(r.prov, false)) then NoMiss else NoMiss.(deniedCreates := 1)), CreateSending)
  }

  function Plus(a: Tally, b: Tally): Tally {
    Tally(a.lostFunds + b.lostFunds, a.deniedFunds + b.deniedFunds,
          a.lostCreates + b.lostCreates, a.deniedCreates + b.deniedCreates)
  }

  function Count(s: State, o: nat, miss: Tally): State {
    if miss == NoMiss || o >= |s.tally| then s else s.(tally := s.tally[o := Plus(s.tally[o], miss)])
  }

  /** The attempt ends; a transaction just broadcast and not yet written down is lost. */
  function Abandon(s: State): State {
    var miss := if s.worker.Busy? && s.worker.pc.FundSent? then NoMiss.(lostFunds := 1)
                else if s.worker.Busy? && s.worker.pc.CreateSent? then NoMiss.(lostCreates := 1)
                else NoMiss;
    (if s.worker.Busy? then Count(s, s.worker.order, miss) else s).(worker := Idle)
  }

  function OnWorker(s: State, e: Event): State
    requires s.worker.Busy? && s.worker.order < |s.mem|
  {
    var o, r := s.worker.order, s.mem[s.worker.order];
    match (s.worker.pc, e)
    case (Planning, PlanAnswer(c, f)) => OnPlan(s, c, f)
    case (Adopting, Scan(logs)) => OnScan(s, logs)
    case (ToCreate, WriteAhead) => OnWriteAhead(s)
    case (CreateSending, BroadcastCreate) =>
      At(s.(txs := s.txs + [Tx(o, CreateTx, Pending)]), CreateSent(|s.txs|))
    case (CreateSent(t), RecordCreate) =>
      if r.prov.None? then s.(worker := Idle)
      else At(Put(s, o, r.(prov := Some(r.prov.value.(txCreate := Some(t))))), AwaitCreate(t))
    case (AwaitCreate(t), CreateReceipt(ok)) => OnCreateReceipt(s, t, ok)
    case (FundCheck, FundAnswer(f)) => OnFundAnswer(s, f)
    case (ToFund, BroadcastFund) => OnBroadcastFund(s)
    case (FundSent(t), RecordFund) =>
      if r.prov.None? then s.(worker := Idle)
      else At(Put(s, o, r.(prov := Some(r.prov.value.(txFund := Some(t))))), AwaitFund(t))
    case (AwaitFund(t), FundReceipt(ok)) =>
      if t >= |s.txs| || s.txs[t].status != (if ok then Success else Reverted) then s
      else if ok then Finish(s) else s.(worker := Idle)
    case _ => s
  }

  function Next(s: State, e: Event): State {
    match e
    case NewOrder(q) => Flush(s.(mem := s.mem + [Rec(None, q, 0, false)], tally := s.tally + [NoMiss]))
    case Payment(o, a) => if o < |s.mem| then Put(s, o, s.mem[o].(paid := s.mem[o].paid + a)) else s
    case SetReady(o, b) => if o < |s.mem| then Put(s, o, s.mem[o].(ready := b)) else s
    case Begin(o) =>
      if s.worker.Idle? && o < |s.mem| && s.mem[o].ready
      then s.(worker := Attempt(o, s.mem[o], Planning)) else s
    case Throws => Abandon(s)
    case Crash => Abandon(s).(mem := s.disk)
    case ChainSettles(t, st) =>
      if t < |s.txs| && s.txs[t].status.Pending? then s.(txs := s.txs[t := s.txs[t].(status := st)]) else s
    case _ => if s.worker.Busy? && s.worker.order < |s.mem| then OnWorker(s, e) else s
  }

  function Run(s: State, es: seq<Event>): State
    decreases |es|
  {
    if es == [] then s else Run(Next(s, es[0]), es[1..])
  }

  // --- counting ---------------------------------------------------------------------------

  /** A fund, or else a create, of this order. */
  predicate IsKind(x: Tx, o: nat, fund: bool) { x.order == o && x.kind.FundTx? == fund }

  predicate IsLive(x: Tx, o: nat, fund: bool) { IsKind(x, o, fund) && (x.status.Pending? || x.status.Success?) }

  /** Transactions of one order and kind that took effect, or still might. */
  function Live(txs: seq<Tx>, o: nat, fund: bool): nat {
    if txs == [] then 0 else Live(txs[..|txs| - 1], o, fund) + if IsLive(txs[|txs| - 1], o, fund) then 1 else 0
  }

  function Succeeded(txs: seq<Tx>, o: nat, fund: bool): nat {
    if txs == [] then 0
    else Succeeded(txs[..|txs| - 1], o, fund)
         + if IsKind(txs[|txs| - 1], o, fund) && txs[|txs| - 1].status.Success? then 1 else 0
  }

  lemma {:induction false} SucceededIsLive(txs: seq<Tx>, o: nat, fund: bool)
    ensures Succeeded(txs, o, fund) <= Live(txs, o, fund)
  {
    if txs != [] { SucceededIsLive(txs[..|txs| - 1], o, fund); }
  }

  lemma {:induction false} LiveUpdate(txs: seq<Tx>, t: nat, x: Tx, o: nat, fund: bool)
    requires t < |txs|
    ensures Live(txs[t := x], o, fund)
            == Live(txs, o, fund) - (if IsLive(txs[t], o, fund) then 1 else 0) + (if IsLive(x, o, fund) then 1 else 0)
  {
    var n := |txs| - 1;
    if t == n {
      assert txs[t := x][..n] == txs[..n];
    } else {
      assert txs[t := x][..n] == txs[..n][t := x];
      LiveUpdate(txs[..n], t, x, o, fund);
    }
  }

  lemma LiveAppend(txs: seq<Tx>, x: Tx, o: nat, fund: bool)
    ensures Live(txs + [x], o, fund) == Live(txs, o, fund) + if IsLive(x, o, fund) then 1 else 0
  {
    assert (txs + [x])[..|txs|] == txs;
  }

  // --- the invariant ---------------------------------------------------------------------

  /** Can this record lead to one more fund, or one more create, on true answers? */
  function Potential(p: Option<Provision>, txs: seq<Tx>, fund: bool): nat {
    if p.None? then 1
    else match p.value.step
      case Creating => if fund || Dead(txs, p.value.txCreate) then 1 else 0
      case Funding => if fund && Dead(txs, p.value.txFund) then 1 else 0
      case Finished => 0
  }

  predicate ProvOk(p: Option<Provision>, o: nat, txs: seq<Tx>) {
    p.Some? ==>
      && (p.value.step.Creating? ==> p.value.dep.None? && p.value.txFund.None?)
      && (!p.value.step.Creating? ==>
            p.value.dep.Some? && p.value.dep.value < |txs| && txs[p.value.dep.value].kind.CreateTx?
            && txs[p.value.dep.value].status.Success?)
      && (p.value.step.Finished? ==> p.value.txFund.Some? && p.value.txFund.value < |txs|
                                     && txs[p.value.txFund.value].status.Success?)
      && (p.value.txCreate.Some? ==>
            p.value.txCreate.value < |txs| && (p.value.step.Creating? ==> IsKind(txs[p.value.txCreate.value], o, false)))
      && (p.value.txFund.Some? ==> p.value.txFund.value < |txs| && IsKind(txs[p.value.txFund.value], o, true))
  }

  function DepOf(p: Option<Provision>): Option<nat> {
    if p.Some? then p.value.dep else None
  }

  /** The quote when nothing was paid, as for a card order, or enough; else what was paid. */
  predicate MovesRight(amount: nat, paid: nat, quote: nat) {
    if paid == 0 || paid >= quote then amount == quote else amount == paid
  }

  predicate WorkerOk(s: State) {
    s.worker.Busy? ==>
      && s.worker.order < |s.mem|
      && MovesRight(s.worker.amount, s.worker.paid, s.mem[s.worker.order].quote)
      && var o, p := s.worker.order, s.mem[s.worker.order].prov;
         match s.worker.pc
         case Planning => true
         case Adopting => DepOf(p).None?
         case ToCreate => DepOf(p).None?
         case CreateSending => p == Some(Provision(Creating, None, None, None))
         case CreateSent(t) => p == Some(Provision(Creating, None, None, None)) && Unclaimed(s, t) && IsKind(s.txs[t], o, false)
         case AwaitCreate(t) => p.Some? && p.value.step.Creating? && Unclaimed(s, t)
         case FundCheck => p.Some?
         case ToFund => p.Some? && p.value.step.Funding?
         case FundSent(t) => p.Some? && p.value.step.Funding? && t < |s.txs| && IsKind(s.txs[t], o, true)
         case AwaitFund(t) => p.Some? && p.value.step.Funding? && p.value.txFund == Some(t)
  }

  /** A create transaction of the running attempt that no order has recorded. */
  predicate Unclaimed(s: State, t: nat) {
    && t < |s.txs| && s.txs[t].kind.CreateTx?
    && forall q | 0 <= q < |s.mem| :: DepOf(s.mem[q].prov) != Some(t)
  }

  predicate Working(s: State, o: nat) { s.worker.Busy? && s.worker.order == o }

  /** The broadcast in hand that no record accounts for yet. */
  predicate InHand(s: State, o: nat, fund: bool) {
    && Working(s, o)
    && (if fund then s.worker.pc.FundSent? else s.worker.pc.CreateSent?)
    && s.worker.pc.tx < |s.txs| && IsLive(s.txs[s.worker.pc.tx], o, fund)
  }

  /** One more of the kind is due: the record may lead to it, or a fund is out unrecorded. */
  function Due(s: State, o: nat, fund: bool): nat
    requires o < |s.mem|
  {
    if fund && Working(s, o) && s.worker.pc.FundSent? then 1 else Potential(s.mem[o].prov, s.txs, fund)
  }

  function Missed(t: Tally, fund: bool): nat {
    if fund then t.lostFunds + t.deniedFunds else t.lostCreates + t.deniedCreates
  }

  predicate Bounded(s: State, o: nat, fund: bool)
    requires o < |s.mem| && |s.tally| == |s.mem|
  {
    Live(s.txs, o, fund) + Due(s, o, fund) <= 1 + Missed(s.tally[o], fund) + if InHand(s, o, fund) then 1 else 0
  }

  /** Transaction t, if it is a fund, is within its order's quote and pays for the
      deployment that order recorded. */
  predicate FundOk(s: State, t: nat) {
    t < |s.txs| && s.txs[t].kind.FundTx? ==>
      var o := s.txs[t].order;
      o < |s.mem| && s.txs[t].kind.amount <= s.mem[o].quote && DepOf(s.mem[o].prov) == Some(s.txs[t].kind.dep)
  }

  predicate Apart(s: State, o: nat, q: nat) {
    o < |s.mem| && q < |s.mem| && o != q && DepOf(s.mem[o].prov).Some? ==>
      DepOf(s.mem[o].prov) != DepOf(s.mem[q].prov)
  }

  predicate OrderOk(s: State, o: nat)
    requires |s.tally| == |s.mem|
  {
    o < |s.mem| ==> ProvOk(s.mem[o].prov, o, s.txs) && Bounded(s, o, true) && Bounded(s, o, false)
  }

  /** Every transaction is of an order placed. */
  predicate Placed(s: State, t: nat) { t < |s.txs| ==> s.txs[t].order < |s.mem| }

  ghost predicate Inv(s: State) {
    && s.mem == s.disk && |s.tally| == |s.mem|
    && (forall o: nat :: OrderOk(s, o))
    && (forall t: nat :: FundOk(s, t))
    && (forall t: nat :: Placed(s, t))
    && (forall o: nat, q: nat :: Apart(s, o, q))
    && WorkerOk(s)
  }

  // --- every step keeps it ----------------------------------------------------------------

  lemma ChainKeepsOrder(s: State, t: nat, st: Status, o: nat)
    requires |s.tally| == |s.mem| && OrderOk(s, o) && WorkerOk(s) && t < |s.txs| && s.txs[t].status.Pending?
    ensures OrderOk(s.(txs := s.txs[t := s.txs[t].(status := st)]), o)
  {
    if o < |s.mem| {
      var s' := s.(txs := s.txs[t := s.txs[t].(status := st)]);
      assert ProvOk(s'.mem[o].prov, o, s'.txs);
      ChainKeepsBound(s, t, st, o, true);
      ChainKeepsBound(s, t, st, o, false);
    }
  }

  lemma ChainKeepsBound(s: State, t: nat, st: Status, o: nat, fund: bool)
    requires |s.tally| == |s.mem| && o < |s.mem| && ProvOk(s.mem[o].prov, o, s.txs) && Bounded(s, o, fund)
    requires WorkerOk(s) && t < |s.txs| && s.txs[t].status.Pending?
    ensures Bounded(s.(txs := s.txs[t := s.txs[t].(status := st)]), o, fund)
  {
    LiveUpdate(s.txs, t, s.txs[t].(status := st), o, fund);
    hide Live;
  }

  lemma ChainKeepsInv(s: State, t: nat, st: Status)
    requires Inv(s) && t < |s.txs| && s.txs[t].status.Pending?
    ensures Inv(s.(txs := s.txs[t := s.txs[t].(status := st)]))
  {
    var s' := s.(txs := s.txs[t := s.txs[t].(status := st)]);
    forall o: nat ensures OrderOk(s', o) { ChainKeepsOrder(s, t, st, o); }
    forall x: nat ensures FundOk(s', x) && Placed(s', x) { assert FundOk(s, x) && Placed(s, x); }
    forall o: nat, q: nat ensures Apart(s', o, q) { assert Apart(s, o, q); }
  }

  /** An order not yet placed has no transactions. */
  lemma {:induction false} NothingYet(s: State, txs: seq<Tx>, o: nat, fund: bool)
    requires (forall t: nat :: Placed(s, t)) && o >= |s.mem| && txs <= s.txs
    ensures Live(txs, o, fund) == 0
  {
    if txs != [] {
      var n := |txs| - 1;
      assert txs[n] == s.txs[n] && Placed(s, n);
      NothingYet(s, txs[..n], o, fund);
    }
  }

  lemma NewOrderKeepsInv(s: State, quote: nat)
    requires Inv(s)
    ensures Inv(Next(s, NewOrder(quote)))
  {
    var s' := Next(s, NewOrder(quote));
    NothingYet(s, s.txs, |s.mem|, true);
    NothingYet(s, s.txs, |s.mem|, false);
    forall o: nat ensures OrderOk(s', o) { assert OrderOk(s, o); }
    forall x: nat ensures FundOk(s', x) && Placed(s', x) { assert FundOk(s, x) && Placed(s, x); }
    forall o: nat, q: nat ensures Apart(s', o, q) { assert Apart(s, o, q); }
  }

  /** One record and its tally change while the log stays as it is: the record may not claim
      a deployment another order holds. */
  lemma PutKeepsInv(s: State, o: nat, s': State)
    requires Inv(s) && o < |s.mem| && s'.mem == s'.disk && s'.txs == s.txs && WorkerOk(s')
    requires |s'.mem| == |s.mem| && |s'.tally| == |s.mem|
    requires forall q | 0 <= q < |s.mem| && q != o :: s'.mem[q] == s.mem[q] && s'.tally[q] == s.tally[q]
    requires forall q: nat | q != o && (Working(s, q) || Working(s', q)) :: s'.worker == s.worker
    requires OrderOk(s', o) && s'.mem[o].quote == s.mem[o].quote
    requires var d := DepOf(s'.mem[o].prov);
             d == DepOf(s.mem[o].prov) || (DepOf(s.mem[o].prov).None? && d.Some? && Unclaimed(s, d.value))
    ensures Inv(s')
  {
    forall q: nat ensures OrderOk(s', q) {
      assert OrderOk(s, q);
      assert q != o && (Working(s, q) || Working(s', q)) ==> s'.worker == s.worker;
    }
    forall x: nat ensures FundOk(s', x) && Placed(s', x) { assert FundOk(s, x) && Placed(s, x); }
    forall p: nat, q: nat ensures Apart(s', p, q) { assert Apart(s, p, q) && Apart(s, q, p); }
  }

  /** Only the worker moves, and it holds no broadcast before or after. */
  lemma MoveKeepsInv(s: State, worker: Worker)
    requires Inv(s) && WorkerOk(s.(worker := worker))
    requires s.worker.Busy? ==> !s.worker.pc.FundSent? && !s.worker.pc.CreateSent?
    requires worker.Busy? ==> !worker.pc.FundSent? && !worker.pc.CreateSent?
    ensures Inv(s.(worker := worker))
  {
    var s' := s.(worker := worker);
    forall o: nat ensures OrderOk(s', o) { assert OrderOk(s, o); }
    forall x: nat ensures FundOk(s', x) && Placed(s', x) { assert FundOk(s, x) && Placed(s, x); }
    forall o: nat, q: nat ensures Apart(s', o, q) { assert Apart(s, o, q); }
  }

  lemma AbandonKeepsInv(s: State)
    requires Inv(s)
    ensures Inv(Abandon(s))
  {
    var s' := Abandon(s);
    forall o: nat ensures OrderOk(s', o) { assert OrderOk(s, o); }
    forall x: nat ensures FundOk(s', x) && Placed(s', x) { assert FundOk(s, x) && Placed(s, x); }
    forall o: nat, q: nat ensures Apart(s', o, q) { assert Apart(s, o, q); }
  }

  lemma OrderEventKeepsInv(s: State, e: Event)
    requires Inv(s) && (e.Payment? || e.SetReady?) && e.order < |s.mem|
    ensures Inv(Next(s, e))
  {
    var s' := Next(s, e);
    assert OrderOk(s, e.order);
    assert s'.mem[e.order].prov == s.mem[e.order].prov && s'.worker == s.worker && s'.tally == s.tally;
    PutKeepsInv(s, e.order, s');
  }

  lemma BeginKeepsInv(s: State, o: nat)
    requires Inv(s)
    ensures Inv(Next(s, Begin(o)))
  {
    if Next(s, Begin(o)) != s { MoveKeepsInv(s, Next(s, Begin(o)).worker); }
  }

  /** What a new broadcast of the worker's order must satisfy. */
  ghost predicate MayAppend(s: State, x: Tx, pc: Pc, miss: Tally) {
    && s.worker.Busy? && !s.worker.pc.FundSent? && !s.worker.pc.CreateSent? && s.worker.order < |s.mem|
    && x.order == s.worker.order && x.status.Pending?
    && pc == (if x.kind.FundTx? then FundSent(|s.txs|) else CreateSent(|s.txs|))
    && Due(Sent(s, x, pc, miss), s.worker.order, x.kind.FundTx?)
       <= Due(s, s.worker.order, x.kind.FundTx?) + Missed(miss, x.kind.FundTx?)
  }

  function Sent(s: State, x: Tx, pc: Pc, miss: Tally): (s': State)
    requires s.worker.Busy?
    ensures s'.mem == s.mem
  {
    At(Count(s.(txs := s.txs + [x]), s.worker.order, miss), pc)
  }

  lemma AppendKeepsOrder(s: State, x: Tx, pc: Pc, miss: Tally, o: nat)
    requires MayAppend(s, x, pc, miss) && o < |s.mem| == |s.tally| && OrderOk(s, o)
    ensures OrderOk(Sent(s, x, pc, miss), o)
  {
    LiveAppend(s.txs, x, o, true);
    LiveAppend(s.txs, x, o, false);
    hide Live;
    SameRecord(s, Sent(s, x, pc, miss), o);
  }

  /** A new broadcast: every other order's count is untouched. */
  lemma AppendKeepsInv(s: State, x: Tx, pc: Pc, miss: Tally)
    requires Inv(s) && MayAppend(s, x, pc, miss) && WorkerOk(Sent(s, x, pc, miss)) && FundOk(Sent(s, x, pc, miss), |s.txs|)
    ensures Inv(Sent(s, x, pc, miss))
  {
    var s' := Sent(s, x, pc, miss);
    forall o: nat ensures OrderOk(s', o) {
      if o < |s.mem| {
        assert OrderOk(s, o);
        AppendKeepsOrder(s, x, pc, miss, o);
      }
    }
    forall t: nat ensures FundOk(s', t) && Placed(s', t) { assert FundOk(s, t) && Placed(s, t); }
    forall o: nat, q: nat ensures Apart(s', o, q) { assert Apart(s, o, q); }
  }

  /** A longer log leaves what a record may lead to as it is. */
  lemma SameRecord(s: State, s': State, o: nat)
    requires o < |s.mem| && s'.mem == s.mem && s.txs <= s'.txs && ProvOk(s.mem[o].prov, o, s.txs)
    ensures ProvOk(s'.mem[o].prov, o, s'.txs)
    ensures forall fund :: Potential(s'.mem[o].prov, s'.txs, fund) == Potential(s.mem[o].prov, s.txs, fund)
  {}

  lemma PlanKeepsInv(s: State, create: Receipt, fund: Receipt)
    requires Inv(s) && s.worker.Busy? && s.worker.pc.Planning?
    ensures Inv(OnPlan(s, create, fund))
  {
    var s' := OnPlan(s, create, fund);
    assert OrderOk(s, s.worker.order);
    if s' != s { MoveKeepsInv(s, s'.worker); }
  }

  lemma ScanKeepsInv(s: State, logs: Option<set<nat>>)
    requires Inv(s) && s.worker.Busy? && s.worker.pc.Adopting?
    ensures Inv(OnScan(s, logs))
  {
    var o, s' := s.worker.order, OnScan(s, logs);
    assert OrderOk(s, o);
    if s'.mem == s.mem {
      if s' != s { MoveKeepsInv(s, s'.worker); }
    } else {
      var t := Sole(logs.value - Mapped(s.mem));
      assert t in logs.value - Mapped(s.mem);
      forall q | 0 <= q < |s.mem| ensures DepOf(s.mem[q].prov) != Some(t) {
        assert DepOf(s.mem[q].prov).Some? ==> DepOf(s.mem[q].prov).value in Mapped(s.mem);
      }
      PutKeepsInv(s, o, s');
    }
  }

  lemma WriteAheadKeepsInv(s: State)
    requires Inv(s) && s.worker.Busy? && s.worker.pc.ToCreate?
    ensures Inv(OnWorker(s, WriteAhead))
  {
    var o, s' := s.worker.order, OnWorker(s, WriteAhead);
    assert OrderOk(s, o);
    PutKeepsInv(s, o, s');
  }

  lemma RecordCreateKeepsInv(s: State)
    requires Inv(s) && s.worker.Busy? && s.worker.pc.CreateSent?
    ensures Inv(OnWorker(s, RecordCreate))
  {
    var o, s' := s.worker.order, OnWorker(s, RecordCreate);
    assert OrderOk(s, o);
    assert Unclaimed(s', s.worker.pc.tx);
    PutKeepsInv(s, o, s');
  }

  lemma BroadcastCreateKeepsInv(s: State)
    requires Inv(s) && s.worker.Busy? && s.worker.pc.CreateSending?
    ensures Inv(OnWorker(s, BroadcastCreate))
  {
    var t := |s.txs|;
    forall q | 0 <= q < |s.mem| ensures DepOf(s.mem[q].prov) != Some(t) { assert OrderOk(s, q); }
    assert OrderOk(s, s.worker.order);
    AppendKeepsInv(s, Tx(s.worker.order, CreateTx, Pending), CreateSent(t), NoMiss);
  }

  lemma CreateReceiptKeepsInv(s: State, ok: bool)
    requires Inv(s) && s.worker.Busy? && s.worker.pc.AwaitCreate?
    ensures Inv(OnWorker(s, CreateReceipt(ok)))
  {
    var o, s' := s.worker.order, OnWorker(s, CreateReceipt(ok));
    assert OrderOk(s, o);
    if s'.mem != s.mem {
      PutKeepsInv(s, o, s');
    } else if s' != s {
      MoveKeepsInv(s, s'.worker);
    }
  }

  lemma FinishKeepsInv(s: State)
    requires Inv(s) && s.worker.Busy? && !s.worker.pc.FundSent?
    requires var p := s.mem[s.worker.order].prov;
             p.Some? && p.value.dep.Some? && p.value.txFund.Some?
             && p.value.txFund.value < |s.txs| && s.txs[p.value.txFund.value].status.Success?
    ensures Inv(Finish(s))
  {
    var o, s' := s.worker.order, Finish(s);
    assert OrderOk(s, o);
    PutKeepsInv(s, o, s');
  }

  lemma FundAnswerKeepsInv(s: State, fund: Receipt)
    requires Inv(s) && s.worker.Busy? && s.worker.pc.FundCheck?
    ensures Inv(OnFundAnswer(s, fund))
  {
    var o, s' := s.worker.order, OnFundAnswer(s, fund);
    assert OrderOk(s, o);
    if s' == Finish(s) && s'.mem != s.mem {
      FinishKeepsInv(s);
    } else if s' != s {
      MoveKeepsInv(s, s'.worker);
    }
  }

  lemma BroadcastFundKeepsInv(s: State)
    requires Inv(s) && s.worker.Busy? && s.worker.pc.ToFund?
    ensures Inv(OnBroadcastFund(s))
  {
    var o := s.worker.order;
    assert OrderOk(s, o);
    var miss := if Dead(s.txs, s.mem[o].prov.value.txFund) then NoMiss else NoMiss.(deniedFunds := 1);
    AppendKeepsInv(s, Tx(o, FundTx(s.mem[o].prov.value.dep.value, s.worker.amount), Pending), FundSent(|s.txs|), miss);
  }

  lemma RecordFundKeepsInv(s: State)
    requires Inv(s) && s.worker.Busy? && s.worker.pc.FundSent?
    ensures Inv(OnWorker(s, RecordFund))
  {
    var o, s' := s.worker.order, OnWorker(s, RecordFund);
    assert OrderOk(s, o);
    PutKeepsInv(s, o, s');
  }

  lemma FundReceiptKeepsInv(s: State, ok: bool)
    requires Inv(s) && s.worker.Busy? && s.worker.pc.AwaitFund?
    ensures Inv(OnWorker(s, FundReceipt(ok)))
  {
    var s' := OnWorker(s, FundReceipt(ok));
    assert OrderOk(s, s.worker.order);
    if s' != s {
      if ok { FinishKeepsInv(s); } else { MoveKeepsInv(s, Idle); }
    }
  }

  lemma WorkerKeepsInv(s: State, e: Event)
    requires Inv(s) && s.worker.Busy?
    ensures Inv(OnWorker(s, e))
  {
    hide OnPlan, OnScan, OnWriteAhead, OnCreateReceipt, OnFundAnswer, OnBroadcastFund, Finish, OrderOk, Apart, FundOk;
    match (s.worker.pc, e)
    case (Planning, PlanAnswer(c, f)) => PlanKeepsInv(s, c, f);
    case (Adopting, Scan(logs)) => ScanKeepsInv(s, logs);
    case (ToCreate, WriteAhead) => WriteAheadKeepsInv(s);
    case (CreateSending, BroadcastCreate) => BroadcastCreateKeepsInv(s);
    case (CreateSent(_), RecordCreate) => RecordCreateKeepsInv(s);
    case (AwaitCreate(_), CreateReceipt(ok)) => CreateReceiptKeepsInv(s, ok);
    case (FundCheck, FundAnswer(f)) => FundAnswerKeepsInv(s, f);
    case (ToFund, BroadcastFund) => BroadcastFundKeepsInv(s);
    case (FundSent(_), RecordFund) => RecordFundKeepsInv(s);
    case (AwaitFund(_), FundReceipt(ok)) => FundReceiptKeepsInv(s, ok);
    case _ =>
  }

  lemma StepKeepsInv(s: State, e: Event)
    requires Inv(s)
    ensures Inv(Next(s, e))
  {
    match e
    case NewOrder(q) => NewOrderKeepsInv(s, q);
    case Payment(o, _) => if o < |s.mem| { OrderEventKeepsInv(s, e); }
    case SetReady(o, _) => if o < |s.mem| { OrderEventKeepsInv(s, e); }
    case Begin(o) => BeginKeepsInv(s, o);
    case Throws => AbandonKeepsInv(s);
    case Crash => AbandonKeepsInv(s);
    case ChainSettles(t, st) => if t < |s.txs| && s.txs[t].status.Pending? { ChainKeepsInv(s, t, st); }
    case _ => if s.worker.Busy? { WorkerKeepsInv(s, e); }
  }

  lemma {:induction false} RunKeepsInv(s: State, es: seq<Event>)
    requires Inv(s)
    ensures Inv(Run(s, es))
    decreases |es|
  {
    if es != [] {
      StepKeepsInv(s, es[0]);
      RunKeepsInv(Next(s, es[0]), es[1..]);
    }
  }

  // --- main results -------------------------------------------------------------------------

  /** Over every run, an order's successful fund transactions number at most one, plus the
      broadcasts lost to a crash or a send error before their hash was saved, plus the sends
      over a recorded fund that the RPC denied although it was mined or in the mempool. */
  lemma FundsBounded(es: seq<Event>, o: nat)
    requires o < |Run(Initial, es).mem|
    ensures var s := Run(Initial, es);
            |s.tally| == |s.mem| && Succeeded(s.txs, o, true) <= 1 + s.tally[o].lostFunds + s.tally[o].deniedFunds
  {
    RunKeepsInv(Initial, es);
    assert OrderOk(Run(Initial, es), o);
    SucceededIsLive(Run(Initial, es).txs, o, true);
  }

  /** "Never two create() calls for one order" holds up to the same two causes. */
  lemma CreatesBounded(es: seq<Event>, o: nat)
    requires o < |Run(Initial, es).mem|
    ensures var s := Run(Initial, es);
            |s.tally| == |s.mem| && Succeeded(s.txs, o, false) <= 1 + s.tally[o].lostCreates + s.tally[o].deniedCreates
  {
    RunKeepsInv(Initial, es);
    assert OrderOk(Run(Initial, es), o);
    SucceededIsLive(Run(Initial, es).txs, o, false);
  }

  /** Every fund transaction ever broadcast moves at most its order's quote, onto the one
      deployment that order recorded. */
  lemma FundsWithinQuote(es: seq<Event>, t: nat)
    requires t < |Run(Initial, es).txs| && Run(Initial, es).txs[t].kind.FundTx?
    ensures var s := Run(Initial, es);
            var o := s.txs[t].order;
            o < |s.mem| && s.txs[t].kind.amount <= s.mem[o].quote
            && DepOf(s.mem[o].prov) == Some(s.txs[t].kind.dep)
  {
    RunKeepsInv(Initial, es);
    assert FundOk(Run(Initial, es), t);
  }

  lemma {:induction false} RunAndThen(s: State, es: seq<Event>, e: Event)
    ensures Run(s, es + [e]) == Next(Run(s, es), e)
    decreases |es|
  {
    if es == [] {
      assert [] + [e] == [e] && [e][1..] == [];
    } else {
      assert (es + [e])[1..] == es[1..] + [e];
      hide Next;
      RunAndThen(Next(s, es[0]), es[1..], e);
    }
  }

  /** At event k of the run an attempt for this order is planned, afresh or after an adoption,
      when so much had arrived for it. */
  predicate PlannedAt(es: seq<Event>, k: nat, o: nat, paid: nat)
    requires k < |es|
  {
    var s, t := Run(Initial, es[..k]), Run(Initial, es[..k + 1]);
    && (es[k] == Begin(o) || (es[k].Scan? && Working(s, o)))
    && Working(t, o) && t.worker.pc.Planning? && o < |s.mem| && s.mem[o].paid == paid
  }

  /** Only at these events does an attempt read what arrived. */
  lemma StepReadsPaid(s: State, e: Event)
    requires WorkerOk(s)
    ensures var t := Next(s, e);
            t.worker.Busy? ==>
              || (s.worker.Busy? && t.worker.order == s.worker.order && t.worker.paid == s.worker.paid)
              || (t.worker.pc.Planning? && t.worker.order < |s.mem| && t.worker.paid == s.mem[t.worker.order].paid
                  && (e == Begin(t.worker.order) || (e.Scan? && Working(s, t.worker.order))))
  {
    hide Mapped;
  }

  lemma {:induction false} AttemptWasPlanned(es: seq<Event>)
    ensures var w := Run(Initial, es).worker;
            w.Busy? ==> exists k | 0 <= k < |es| :: PlannedAt(es, k, w.order, w.paid)
    decreases |es|
  {
    if es != [] {
      var n := |es| - 1;
      var before, e := es[..n], es[n];
      assert es == before + [e] && es[..n + 1] == es;
      RunAndThen(Initial, before, e);
      RunKeepsInv(Initial, before);
      StepReadsPaid(Run(Initial, before), e);
      AttemptWasPlanned(before);
      hide Run, Next, Inv;
      var s, w := Run(Initial, before), Run(Initial, es).worker;
      if w.Busy? {
        if s.worker.Busy? && w.order == s.worker.order && w.paid == s.worker.paid {
          var k :| 0 <= k < |before| && PlannedAt(before, k, w.order, w.paid);
          assert before[..k] == es[..k] && before[..k + 1] == es[..k + 1] && before[k] == es[k];
          assert PlannedAt(es, k, w.order, w.paid);
        } else {
          assert PlannedAt(es, n, w.order, w.paid);
        }
      }
    }
  }

  /** Over every run, a fund moves exactly the quote if nothing had arrived, or enough, when its
      attempt was planned, and exactly what had arrived otherwise. */
  lemma FundsExactly(es: seq<Event>, e: Event)
    ensures var s, t := Run(Initial, es), Next(Run(Initial, es), e);
            |t.txs| > |s.txs| && t.txs[|s.txs|].kind.FundTx? ==>
              var x := t.txs[|s.txs|];
              && x.order < |s.mem|
              && exists k: nat, paid: nat | k < |es| && PlannedAt(es, k, x.order, paid) ::
                   MovesRight(x.kind.amount, paid, s.mem[x.order].quote)
  {
    RunKeepsInv(Initial, es);
    AttemptWasPlanned(es);
    hide Run, PlannedAt;
    SendsItsAmount(Run(Initial, es), e);
  }

  lemma SendsItsAmount(s: State, e: Event)
    requires Inv(s)
    ensures var t := Next(s, e);
            |t.txs| > |s.txs| && t.txs[|s.txs|].kind.FundTx? ==>
              var x := t.txs[|s.txs|];
              s.worker.Busy? && x.order == s.worker.order < |s.mem| && x.kind.amount == s.worker.amount
              && MovesRight(s.worker.amount, s.worker.paid, s.mem[x.order].quote)
  {
    hide OrderOk, FundOk, Placed, Apart, OnScan, OnCreateReceipt, OnFundAnswer, OnPlan;
    if Next(s, e).txs != s.txs && s.worker.Busy? { OnlyBroadcasts(s, e); }
  }

  lemma OnlyBroadcasts(s: State, e: Event)
    ensures |Next(s, e).txs| > |s.txs| ==>
              s.worker.Busy? && ((e.BroadcastCreate? && s.worker.pc.CreateSending?) || (e.BroadcastFund? && s.worker.pc.ToFund?))
  {}

  /** A finished order was funded: its recorded fund transaction is its own and was mined. */
  lemma FinishedMeansFunded(es: seq<Event>, o: nat)
    ensures var s := Run(Initial, es);
            o < |s.mem| && s.mem[o].prov.Some? && s.mem[o].prov.value.step.Finished? ==>
              var f := s.mem[o].prov.value.txFund;
              f.Some? && f.value < |s.txs| && IsKind(s.txs[f.value], o, true) && s.txs[f.value].status.Success?
  {
    RunKeepsInv(Initial, es);
    assert OrderOk(Run(Initial, es), o);
  }

  /** No two orders ever record the same deployment, across fresh creates, adoption,
      timeouts and crashes. */
  lemma DeploymentsDistinct(es: seq<Event>, o: nat, q: nat)
    requires o < |Run(Initial, es).mem| && q < |Run(Initial, es).mem| && o != q
    ensures var s := Run(Initial, es);
            DepOf(s.mem[o].prov).Some? ==> DepOf(s.mem[o].prov) != DepOf(s.mem[q].prov)
  {
    RunKeepsInv(Initial, es);
    assert Apart(Run(Initial, es), o, q);
  }

  // --- what becomes of an order ---------------------------------------------------------------

  /** What an attempt does next, by the record and the receipts: a create is sent only where
      none can be out there, nothing is sent over the mempool, a denied create is looked for,
      and everything else goes on to the fund. */
  lemma PlansExactly(s: State, o: nat, create: Receipt, fund: Receipt)
    requires Inv(s) && Working(s, o) && s.worker.pc.Planning? && o < |s.mem|
    requires Answers(s.txs, HashOf(s.mem[o].prov, false), create) && Answers(s.txs, HashOf(s.mem[o].prov, true), fund)
    ensures var p, w := s.mem[o].prov, Next(s, PlanAnswer(create, fund)).worker;
            var creating := p.Some? && p.value.step.Creating?;
            var funding := p.Some? && p.value.step.Funding?;
            && (w.Busy? && w.pc.ToCreate? <==> p.None? || (creating && (p.value.txCreate.None? || create == Receipt(false))))
            && (w.Busy? && w.pc.Adopting? <==> creating && p.value.txCreate.Some? && create.Unknown?)
            && (w.Idle? <==> (creating && p.value.txCreate.Some? && create.InMempool?)
                             || (funding && p.value.txFund.Some? && fund.InMempool?))
            && (w.Busy? ==> w.order == o && (w.pc.ToCreate? || w.pc.Adopting? || w.pc.FundCheck?))
  {
    assert OrderOk(s, o);
  }

  /** At the fund: it is sent unless the recorded one may still be mined as far as the RPC
      says, and a mined one finishes the order without another. */
  lemma FundDecidedExactly(s: State, o: nat, fund: Receipt)
    requires Inv(s) && Working(s, o) && s.worker.pc.FundCheck? && DepOf(s.mem[o].prov).Some?
    requires s.mem[o].prov.value.step.Funding? && Answers(s.txs, s.mem[o].prov.value.txFund, fund)
    ensures var t := Next(s, FundAnswer(fund));
            && t.txs == s.txs && o < |t.mem|
            && (t.worker.Busy? <==> fund.Unknown? || fund == Receipt(false))
            && (t.worker.Busy? ==> t.worker == s.worker.(pc := ToFund) && t.mem == s.mem)
            && (t.mem[o].prov.Some? && t.mem[o].prov.value.step.Finished? <==> fund == Receipt(true))
  {
    assert OrderOk(s, o);
  }

  /** A scan is believed about exactly one deployment: the only one it returned that no order
      has recorded. */
  lemma AdoptsExactly(s: State, logs: set<nat>, d: nat)
    requires s.worker.Busy? && s.worker.order < |s.mem| && s.worker.pc.Adopting? && DepOf(s.mem[s.worker.order].prov).None?
    requires forall t <- logs :: t < |s.txs| && s.txs[t].kind.CreateTx? && s.txs[t].status.Success?
    ensures var o, s' := s.worker.order, Next(s, Scan(Some(logs)));
            && |s'.mem| == |s.mem|
            && (DepOf(s'.mem[o].prov) == Some(d)
                <==> d in logs && forall t <- logs :: t == d <==> forall q | 0 <= q < |s.mem| :: DepOf(s.mem[q].prov) != Some(t))
  {
    MappedMeans(s.mem);
    hide Mapped;
    ScanAdoptsSole(s, logs);
    var orphans := logs - Mapped(s.mem);
    forall t <- logs ensures t in orphans <==> forall q | 0 <= q < |s.mem| :: DepOf(s.mem[q].prov) != Some(t) {}
    if d in logs && forall t <- logs :: t == d <==> t in orphans {
      assert orphans == {d};
    }
    if |orphans| == 1 {
      var u := Sole(orphans);
      assert orphans == {u};
    }
  }

  lemma ScanAdoptsSole(s: State, logs: set<nat>)
    requires s.worker.Busy? && s.worker.order < |s.mem| && s.worker.pc.Adopting? && DepOf(s.mem[s.worker.order].prov).None?
    requires forall t <- logs :: t < |s.txs| && s.txs[t].kind.CreateTx? && s.txs[t].status.Success?
    ensures var s', orphans := Next(s, Scan(Some(logs))), logs - Mapped(s.mem);
            && |s'.mem| == |s.mem|
            && DepOf(s'.mem[s.worker.order].prov) == if |orphans| == 1 then Some(Sole(orphans)) else None
  {
    hide Mapped;
  }

  /** Otherwise: with several of them the attempt stops for a human, with none, or no answer, it
      sends a create of its own. */
  lemma ScanOtherwise(s: State, logs: set<nat>)
    requires s.worker.Busy? && s.worker.order < |s.mem| && s.worker.pc.Adopting? && DepOf(s.mem[s.worker.order].prov).None?
    requires forall t <- logs :: t < |s.txs| && s.txs[t].kind.CreateTx? && s.txs[t].status.Success?
    ensures (exists t, u :: t in logs && u in logs && t != u && Unrecorded(s, t) && Unrecorded(s, u)) ==>
              Next(s, Scan(Some(logs))) == s.(worker := Idle)
    ensures (forall t <- logs :: !Unrecorded(s, t)) ==> Next(s, Scan(Some(logs))) == s.(worker := s.worker.(pc := ToCreate))
    ensures Next(s, Scan(None)) == s.(worker := s.worker.(pc := ToCreate))
  {
    ScanByCount(s, logs);
    MappedMeans(s.mem);
    hide Mapped, Next;
    var orphans := logs - Mapped(s.mem);
    forall t <- logs ensures t in orphans <==> Unrecorded(s, t) {}
    if t, u :| t in logs && u in logs && t != u && Unrecorded(s, t) && Unrecorded(s, u) {
      TwoAreMany(orphans, t, u);
    }
    if forall t <- logs :: !Unrecorded(s, t) { assert orphans == {}; }
  }

  lemma ScanByCount(s: State, logs: set<nat>)
    requires s.worker.Busy? && s.worker.order < |s.mem| && s.worker.pc.Adopting?
    requires forall t <- logs :: t < |s.txs| && s.txs[t].kind.CreateTx? && s.txs[t].status.Success?
    ensures |logs - Mapped(s.mem)| > 1 ==> Next(s, Scan(Some(logs))) == s.(worker := Idle)
    ensures logs - Mapped(s.mem) == {} ==> Next(s, Scan(Some(logs))) == s.(worker := s.worker.(pc := ToCreate))
    ensures Next(s, Scan(None)) == s.(worker := s.worker.(pc := ToCreate))
  {
    hide Mapped;
  }

  predicate Unrecorded(s: State, t: nat) { forall q | 0 <= q < |s.mem| :: DepOf(s.mem[q].prov) != Some(t) }

  lemma TwoAreMany(ts: set<nat>, t: nat, u: nat)
    requires t in ts && u in ts && t != u
    ensures |ts| > 1
  {
    assert |ts - {t}| == |ts| - 1 && u in ts - {t};
  }

  lemma MappedMeans(rs: seq<Rec>)
    ensures forall t: nat :: t in Mapped(rs) <==> exists q | 0 <= q < |rs| :: DepOf(rs[q].prov) == Some(t)
  {
    forall t: nat ensures t in Mapped(rs) <==> exists q | 0 <= q < |rs| :: DepOf(rs[q].prov) == Some(t) {
      if t in Mapped(rs) {
        var q :| 0 <= q < |rs| && rs[q].prov.Some? && rs[q].prov.value.dep.Some? && rs[q].prov.value.dep.value == t;
        assert DepOf(rs[q].prov) == Some(t);
      }
    }
  }

  /** The create of an attempt is sent and mined. */
  lemma CreateGoesThrough(s: State, o: nat)
    requires s.worker.Idle? && o < |s.mem| && s.mem[o].prov.None? && s.mem[o].ready
    ensures var n := |s.txs|;
            var sent := Next(Next(Next(Next(Next(s, Begin(o)), PlanAnswer(Unknown, Unknown)), WriteAhead), BroadcastCreate), RecordCreate);
            var t := Next(Next(sent, ChainSettles(n, Success)), CreateReceipt(true));
            var mem := s.mem[o := s.mem[o].(prov := Some(Provision(Funding, Some(n), Some(n), None)))];
            t == s.(mem := mem, disk := mem, txs := s.txs + [Tx(o, CreateTx, Success)], worker := Attempt(o, s.mem[o], FundCheck))
  {
    var n := |s.txs|;
    Begins(s, o);
    var s1 := Next(s, Begin(o));
    StartsCreate(s1, o);
    var s2 := Next(Next(s1, PlanAnswer(Unknown, Unknown)), WriteAhead);
    Sends(s2);
    var s3 := Next(s2, BroadcastCreate);
    Records(s3, n);
    var s4 := Next(s3, RecordCreate);
    hide Next;
    assert s4.txs == s.txs + [Tx(o, CreateTx, Pending)];
    CreateLands(s4, n);
    assert (s.txs + [Tx(o, CreateTx, Pending)])[n := Tx(o, CreateTx, Success)] == s.txs + [Tx(o, CreateTx, Success)];
    SetTwice(s.mem, o, s2.mem[o], s4.mem[o]);
    SetTwice(s.mem, o, s4.mem[o], s4.mem[o].(prov := Some(Provision(Funding, Some(n), Some(n), None))));
  }

  lemma SetTwice<T>(xs: seq<T>, i: nat, a: T, b: T)
    requires i < |xs|
    ensures xs[i := a][i := b] == xs[i := b]
  {}

  lemma CreateLands(s: State, t: nat)
    requires s.worker.Busy? && s.worker.order < |s.mem| && s.worker.pc == AwaitCreate(t) && t < |s.txs| && s.txs[t].status.Pending?
    requires s.mem[s.worker.order].prov == Some(Provision(Creating, Some(t), None, None))
    ensures var o := s.worker.order;
            var mem := s.mem[o := s.mem[o].(prov := Some(Provision(Funding, Some(t), Some(t), None)))];
            Next(Next(s, ChainSettles(t, Success)), CreateReceipt(true))
            == s.(mem := mem, disk := mem, txs := s.txs[t := s.txs[t].(status := Success)], worker := s.worker.(pc := FundCheck))
  {
    var s1 := Next(s, ChainSettles(t, Success));
    assert s1 == s.(txs := s.txs[t := s.txs[t].(status := Success)]);
  }

  /** The fund is sent and mined. */
  lemma FundGoesThrough(s: State, d: nat)
    requires s.worker.Busy? && s.worker.order < |s.mem| && s.worker.pc.FundCheck?
    requires s.mem[s.worker.order].prov == Some(Provision(Funding, Some(d), Some(d), None))
    ensures var o, n := s.worker.order, |s.txs|;
            var sent := Next(Next(Next(s, FundAnswer(Unknown)), BroadcastFund), RecordFund);
            var t := Next(Next(sent, ChainSettles(n, Success)), FundReceipt(true));
            var mem := s.mem[o := s.mem[o].(prov := Some(Provision(Finished, Some(d), Some(d), Some(n))), ready := false)];
            t == s.(mem := mem, disk := mem, txs := s.txs + [Tx(o, FundTx(d, s.worker.amount), Success)], worker := Idle)
  {
    var o, n := s.worker.order, |s.txs|;
    FundIsSent(s, d);
    var sent := Next(Next(Next(s, FundAnswer(Unknown)), BroadcastFund), RecordFund);
    hide Next;
    FundLands(sent, n);
    var x := Tx(o, FundTx(d, s.worker.amount), Pending);
    assert (s.txs + [x])[n := x.(status := Success)] == s.txs + [x.(status := Success)];
    SetTwice(s.mem, o, sent.mem[o], sent.mem[o].(prov := Some(Provision(Finished, Some(d), Some(d), Some(n))), ready := false));
  }

  lemma FundIsSent(s: State, d: nat)
    requires s.worker.Busy? && s.worker.order < |s.mem| && s.worker.pc.FundCheck?
    requires s.mem[s.worker.order].prov == Some(Provision(Funding, Some(d), Some(d), None))
    ensures var o, n := s.worker.order, |s.txs|;
            var mem := s.mem[o := s.mem[o].(prov := Some(Provision(Funding, Some(d), Some(d), Some(n))))];
            Next(Next(Next(s, FundAnswer(Unknown)), BroadcastFund), RecordFund)
            == s.(mem := mem, disk := mem, txs := s.txs + [Tx(o, FundTx(d, s.worker.amount), Pending)],
                  worker := s.worker.(pc := AwaitFund(n)))
  {
    var s1 := Next(s, FundAnswer(Unknown));
    assert s1 == s.(worker := s.worker.(pc := ToFund));
    var s2 := Next(s1, BroadcastFund);
    assert s2 == s1.(txs := s.txs + [Tx(s.worker.order, FundTx(d, s.worker.amount), Pending)],
                     worker := s.worker.(pc := FundSent(|s.txs|)));
  }

  lemma FundLands(s: State, t: nat)
    requires s.worker.Busy? && s.worker.order < |s.mem| && s.worker.pc == AwaitFund(t) && t < |s.txs| && s.txs[t].status.Pending?
    requires s.mem[s.worker.order].prov.Some?
    ensures var o := s.worker.order;
            var mem := s.mem[o := s.mem[o].(prov := Some(s.mem[o].prov.value.(step := Finished)), ready := false)];
            Next(Next(s, ChainSettles(t, Success)), FundReceipt(true))
            == s.(mem := mem, disk := mem, txs := s.txs[t := s.txs[t].(status := Success)], worker := Idle)
  {
    var s1 := Next(s, ChainSettles(t, Success));
    assert s1 == s.(txs := s.txs[t := s.txs[t].(status := Success)]);
  }

  /** A ready order whose transactions go through: one create, one fund of the right amount onto
      the deployment it made, and the order is finished, on disk, and no longer queued. */
  lemma OrderIsFulfilled(s: State, o: nat)
    requires s.worker.Idle? && o < |s.mem| && s.mem[o].prov.None? && s.mem[o].ready
    ensures var n, r := |s.txs|, s.mem[o];
            var created := Next(Next(Next(Next(Next(s, Begin(o)), PlanAnswer(Unknown, Unknown)), WriteAhead), BroadcastCreate), RecordCreate);
            var toFund := Next(Next(created, ChainSettles(n, Success)), CreateReceipt(true));
            var funded := Next(Next(Next(toFund, FundAnswer(Unknown)), BroadcastFund), RecordFund);
            var t := Next(Next(funded, ChainSettles(n + 1, Success)), FundReceipt(true));
            && t.disk == t.mem == s.mem[o := r.(prov := Some(Provision(Finished, Some(n), Some(n), Some(n + 1))), ready := false)]
            && t.txs == s.txs + [Tx(o, CreateTx, Success),
                                 Tx(o, FundTx(n, if r.paid == 0 || r.paid >= r.quote then r.quote else r.paid), Success)]
            && t.worker.Idle?
  {
    CreateGoesThrough(s, o);
    var created := Next(Next(Next(Next(Next(s, Begin(o)), PlanAnswer(Unknown, Unknown)), WriteAhead), BroadcastCreate), RecordCreate);
    var toFund := Next(Next(created, ChainSettles(|s.txs|, Success)), CreateReceipt(true));
    hide Next;
    FundGoesThrough(toFund, |s.txs|);
    SetTwice(s.mem, o, toFund.mem[o], toFund.mem[o].(prov := Some(Provision(Finished, Some(|s.txs|), Some(|s.txs|), Some(|s.txs| + 1))), ready := false));
  }

  /** And one that died with its fund hash on disk finishes on the next attempt once the fund
      is mined, sending nothing more. */
  lemma FundedOrderFinishesAfterCrash(s: State, o: nat, d: nat, f: nat, create: Receipt)
    requires Inv(s) && o < |s.mem| && s.mem[o].ready && f < |s.txs| && s.txs[f].status.Pending?
    requires s.mem[o].prov.Some? && s.mem[o].prov.value.step.Funding? && s.mem[o].prov.value.txFund == Some(f)
    requires Answers(s.txs[f := s.txs[f].(status := Success)], s.mem[o].prov.value.txCreate, create)
    ensures var begun := Next(Next(Next(s, Crash), ChainSettles(f, Success)), Begin(o));
            var t := Next(Next(begun, PlanAnswer(create, Receipt(true))), FundAnswer(Receipt(true)));
            && t.txs == s.txs[f := s.txs[f].(status := Success)] && t.worker.Idle? && t.disk == t.mem
            && t.mem == s.mem[o := s.mem[o].(prov := Some(s.mem[o].prov.value.(step := Finished)), ready := false)]
  {
    assert OrderOk(s, o);
    var back := Next(Next(s, Crash), ChainSettles(f, Success));
    Restarts(s, f);
    hide Inv, OrderOk;
    Begins(back, o);
    var begun := Next(back, Begin(o));
    assert begun == back.(worker := Attempt(o, s.mem[o], Planning));
    FoundFunded(begun, f, create);
  }

  lemma Restarts(s: State, f: nat)
    requires s.mem == s.disk && f < |s.txs| && s.txs[f].status.Pending?
    ensures var t := Next(Next(s, Crash), ChainSettles(f, Success));
            t.mem == s.mem && t.disk == s.disk && t.worker.Idle? && t.txs == s.txs[f := s.txs[f].(status := Success)]
  {
    hide OnWorker;
  }

  lemma FoundFunded(s: State, f: nat, create: Receipt)
    requires s.worker.Busy? && s.worker.order < |s.mem| && s.worker.pc.Planning? && f < |s.txs| && s.txs[f].status.Success?
    requires var p := s.mem[s.worker.order].prov;
             p.Some? && p.value.step.Funding? && p.value.dep.Some? && p.value.txFund == Some(f)
             && Answers(s.txs, p.value.txCreate, create)
    ensures var o := s.worker.order;
            var mem := s.mem[o := s.mem[o].(prov := Some(s.mem[o].prov.value.(step := Finished)), ready := false)];
            Next(Next(s, PlanAnswer(create, Receipt(true))), FundAnswer(Receipt(true)))
            == s.(mem := mem, disk := mem, worker := Idle)
  {
    var s1 := Next(s, PlanAnswer(create, Receipt(true)));
    assert s1 == s.(worker := s.worker.(pc := FundCheck));
  }

  // --- where the code gives less than its comments ---------------------------------------------

  /** The order's own create was mined, but its attempt ended before the id was saved. */
  predicate Stuck(s: State, o: nat, t: nat) {
    && o < |s.mem| && t < |s.txs| && s.txs[t].status.Success? && s.mem == s.disk
    && s.mem[o].prov == Some(Provision(Creating, Some(t), None, None))
    && (s.worker.Busy? && s.worker.order == o ==> s.worker.pc.Planning? || s.worker.pc.FundCheck?)
  }

  /** The RPC knows nothing of the order's create, and the worker believes it. */
  predicate Denies(s: State, o: nat, e: Event) {
    Working(s, o) && s.worker.pc.Planning? && e == PlanAnswer(Unknown, Unknown)
  }

  /** A stuck order leaves that state with such an answer and with nothing else. */
  lemma StuckStays(s: State, o: nat, t: nat, e: Event)
    requires Stuck(s, o, t)
    ensures Stuck(Next(s, e), o, t) <==> !Denies(s, o, e)
  {
    if e.NewOrder? || e.Payment? || e.SetReady? || e.Begin? || e.Throws? || e.Crash? || e.ChainSettles? {
      hide OnWorker;
    } else if s.worker.Busy? && s.worker.order < |s.mem| {
      if s.worker.order == o { OwnWork(s, o, t, e); } else { OthersWork(s, o, t, e); }
    }
  }

  lemma OwnWork(s: State, o: nat, t: nat, e: Event)
    requires Stuck(s, o, t) && Working(s, o)
    ensures Stuck(OnWorker(s, e), o, t) <==> !Denies(s, o, e)
  {
    hide OnScan, OnWriteAhead, OnCreateReceipt, OnBroadcastFund, Finish;
  }

  lemma OthersWork(s: State, o: nat, t: nat, e: Event)
    requires Stuck(s, o, t) && s.worker.Busy? && s.worker.order < |s.mem| && s.worker.order != o
    ensures Stuck(OnWorker(s, e), o, t)
  {
    var s' := OnWorker(s, e);
    assert s.txs <= s'.txs && |s'.mem| == |s.mem| && s'.mem[o] == s.mem[o] && s'.mem == s'.disk && !Working(s', o);
  }

  predicate DeniedIn(s: State, o: nat, es: seq<Event>)
    decreases |es|
  {
    es != [] && (Denies(s, o, es[0]) || DeniedIn(Next(s, es[0]), o, es[1..]))
  }

  /** Recovery answers "fund" for such a record and funding throws for want of an id, over
      and over: no run funds the order before the RPC denies its mined create. */
  lemma {:induction false} MinedCreateStrandsOrder(s: State, o: nat, t: nat, es: seq<Event>)
    requires Stuck(s, o, t) && !DeniedIn(s, o, es)
    ensures Stuck(Run(s, es), o, t)
    decreases |es|
  {
    if es != [] {
      StuckStays(s, o, t, es[0]);
      MinedCreateStrandsOrder(Next(s, es[0]), o, t, es[1..]);
    }
  }

  /** The way out: denied its create, the order scans for it, and if it finds just that one
      it records it and goes on to fund, exactly if no other order recorded it meanwhile. */
  lemma RescuedExactly(s: State, o: nat, t: nat)
    requires Stuck(s, o, t) && s.worker.Idle? && s.mem[o].ready && s.txs[t].kind.CreateTx?
    ensures var asked := Next(Next(s, Begin(o)), PlanAnswer(Unknown, Unknown));
            var s' := Next(asked, Scan(Some({t})));
            && |s'.mem| == |s.mem|
            && (s'.mem[o].prov == Some(Provision(Funding, Some(t), Some(t), None)) <==> t !in Mapped(s.mem))
            && (t !in Mapped(s.mem) ==> s'.worker == Attempt(o, s.mem[o], Planning) && s'.disk == s'.mem)
  {
    hide Next;
    Begins(s, o);
    Denied(Next(s, Begin(o)), t);
    ScansForOwn(s.(worker := Attempt(o, s.mem[o], Adopting)), t);
  }

  lemma ScansForOwn(s: State, t: nat)
    requires s.worker.Busy? && s.worker.order < |s.mem| && s.worker.pc.Adopting?
    requires t < |s.txs| && s.txs[t].kind.CreateTx? && s.txs[t].status.Success?
    requires s.mem[s.worker.order].prov == Some(Provision(Creating, Some(t), None, None))
    ensures var o, s' := s.worker.order, Next(s, Scan(Some({t})));
            && |s'.mem| == |s.mem|
            && (if t in Mapped(s.mem) then s' == s.(worker := s.worker.(pc := ToCreate))
                else s'.mem[o].prov == Some(Provision(Funding, Some(t), Some(t), None)) && s'.disk == s'.mem
                     && s'.worker == Attempt(o, s.mem[o], Planning))
  {
    hide Mapped;
    if t !in Mapped(s.mem) {
      assert {t} - Mapped(s.mem) == {t};
    } else {
      assert {t} - Mapped(s.mem) == {};
    }
  }

  predicate ChainOnly(es: seq<Event>) { forall i | 0 <= i < |es| :: es[i].ChainSettles? }

  /** The chain alone settles pending transactions and changes nothing else. */
  lemma {:induction false} ChainRun(s: State, es: seq<Event>)
    requires ChainOnly(es)
    ensures var t := Run(s, es);
            && t == s.(txs := t.txs) && |t.txs| == |s.txs|
            && forall i | 0 <= i < |s.txs| ::
                 && t.txs[i].order == s.txs[i].order && t.txs[i].kind == s.txs[i].kind
                 && (!s.txs[i].status.Pending? ==> t.txs[i] == s.txs[i])
    decreases |es|
  {
    if es != [] { ChainRun(Next(s, es[0]), es[1..]); }
  }

  /** Let the chain mine this transaction, if it still can. */
  function Mining(s: State, t: nat): (es: seq<Event>)
    requires t < |s.txs|
    ensures ChainOnly(es)
  {
    if s.txs[t].status.Pending? then [ChainSettles(t, Success)] else []
  }

  lemma Mined(s: State, t: nat)
    requires t < |s.txs| && !Dead(s.txs, Some(t))
    ensures var s' := Run(s, Mining(s, t));
            s' == s.(txs := s'.txs) && |s'.txs| == |s.txs| && s'.txs[t] == s.txs[t].(status := Success)
  {
    ChainRun(s, Mining(s, t));
    RunOne(s, ChainSettles(t, Success));
  }

  /** An attempt that ends in a throw or a crash while it awaits its create receipt leaves
      the order stuck whenever the transaction is mined, until the RPC denies that, so it
      is safe to end it exactly when the transaction has already failed. */
  lemma InterruptedCreate(s: State, t: nat, e: Event)
    requires Inv(s) && s.worker.Busy? && s.worker.pc == AwaitCreate(t) && (e.Throws? || e.Crash?)
    requires s.mem[s.worker.order].prov == Some(Provision(Creating, Some(t), None, None))
    ensures (forall es: seq<Event> | ChainOnly(es) :: !Stuck(Run(Next(s, e), es), s.worker.order, t))
            <==> Dead(s.txs, Some(t))
  {
    var s1, o := Next(s, e), s.worker.order;
    if Dead(s.txs, Some(t)) {
      forall es: seq<Event> | ChainOnly(es) ensures !Stuck(Run(s1, es), o, t) { ChainRun(s1, es); }
    } else {
      Mined(s1, t);
      assert Stuck(Run(s1, Mining(s1, t)), o, t);
    }
  }

  // --- whose deployment a scan adopts --------------------------------------------------------------

  /** Whatever the chain still does and whichever logs the scan returns, a create the worker
      adopts is its own order's. */
  ghost predicate AdoptsOwn(s: State, o: nat) {
    forall es: seq<Event>, logs: Option<set<nat>> | ChainOnly(es) ::
      var t := Next(Run(s, es), Scan(logs));
      o < |t.mem| && DepOf(t.mem[o].prov).Some? ==>
        DepOf(t.mem[o].prov).value < |t.txs| && t.txs[DepOf(t.mem[o].prov).value].order == o
  }

  /** Another order's create that no record maps, mined or still able to be. */
  predicate Stray(s: State, o: nat, t: nat) {
    t < |s.txs| && s.txs[t].kind.CreateTx? && s.txs[t].order != o && t !in Mapped(s.mem) && !Dead(s.txs, Some(t))
  }

  /** What a scan adopts. */
  lemma Adopted(s: State, logs: Option<set<nat>>)
    requires s.worker.Busy? && s.worker.order < |s.mem| && s.worker.pc.Adopting?
    requires DepOf(s.mem[s.worker.order].prov).None?
    ensures var s' := Next(s, Scan(logs));
            && |s'.mem| == |s.mem| && s'.txs == s.txs
            && var d := DepOf(s'.mem[s.worker.order].prov);
            d.Some? ==> && d.value < |s.txs| && d.value !in Mapped(s.mem)
                        && s.txs[d.value].kind.CreateTx? && s.txs[d.value].status.Success?
  {
    if logs.Some? && |logs.value - Mapped(s.mem)| == 1 {
      assert Sole(logs.value - Mapped(s.mem)) in logs.value - Mapped(s.mem);
    }
  }

  lemma AdoptsStray(s: State, t: nat)
    requires s.worker.Busy? && s.worker.order < |s.mem| && s.worker.pc.Adopting?
    requires t < |s.txs| && s.txs[t].kind.CreateTx? && s.txs[t].status.Success? && t !in Mapped(s.mem)
    ensures var s' := Next(s, Scan(Some({t})));
            |s'.mem| == |s.mem| && s'.txs == s.txs && DepOf(s'.mem[s.worker.order].prov) == Some(t)
  {
    assert {t} - Mapped(s.mem) == {t};
  }

  /** Adopting is right for all futures exactly when no create of another order is left that
      no record maps and that was mined or still may be: the caller can check the chain for
      those before it scans. */
  lemma AdoptsOwnExactly(s: State)
    requires Inv(s) && s.worker.Busy? && s.worker.pc.Adopting?
    ensures AdoptsOwn(s, s.worker.order) <==> !exists t :: Stray(s, s.worker.order, t)
  {
    var o := s.worker.order;
    if t :| Stray(s, o, t) {
      Mined(s, t);
      AdoptsStray(Run(s, Mining(s, t)), t);
    } else {
      forall es: seq<Event>, logs: Option<set<nat>> | ChainOnly(es)
        ensures var t := Next(Run(s, es), Scan(logs));
                o < |t.mem| && DepOf(t.mem[o].prov).Some? ==>
                  DepOf(t.mem[o].prov).value < |t.txs| && t.txs[DepOf(t.mem[o].prov).value].order == o
      {
        ChainRun(s, es);
        Adopted(Run(s, es), logs);
        var d := DepOf(Next(Run(s, es), Scan(logs)).mem[o].prov);
        if d.Some? { assert !Stray(s, o, d.value); }
      }
    }
  }

  lemma {:induction false} RunConcat(s: State, a: seq<Event>, b: seq<Event>)
    ensures Run(s, a + b) == Run(Run(s, a), b)
    decreases |a|
  {
    if a == [] {
      assert a + b == b;
    } else {
      assert (a + b)[1..] == a[1..] + b;
      RunConcat(Next(s, a[0]), a[1..], b);
    }
  }

  lemma RunFour(s: State, a: Event, b: Event, c: Event, d: Event)
    ensures Run(s, [a, b, c, d]) == Next(Next(Next(Next(s, a), b), c), d)
  {
    assert [a, b, c, d][1..] == [b, c, d] && [b, c, d][1..] == [c, d] && [c, d][1..] == [d] && [d][1..] == [];
    var s2 := Next(Next(s, a), b);
    assert Run(s2, [c, d]) == Run(Next(s2, c), [d]) == Next(Next(s2, c), d);
    assert Run(s, [a, b, c, d]) == Run(Next(s, a), [b, c, d]) == Run(s2, [c, d]);
  }

  const TwoPaidOrders: seq<Event> := [NewOrder(5), NewOrder(7), SetReady(0, true), SetReady(1, true)]
  const FirstCreates: seq<Event> := [Begin(0), PlanAnswer(Unknown, Unknown), WriteAhead, BroadcastCreate]
  const FirstMinesLate: seq<Event> := [RecordCreate, Throws, ChainSettles(0, Success), Begin(1)]
  const SecondCreates: seq<Event> := [PlanAnswer(Unknown, Unknown), WriteAhead, BroadcastCreate, RecordCreate]
  const SecondIsDropped: seq<Event> := [Throws, ChainSettles(1, Dropped), Begin(1), PlanAnswer(Unknown, Unknown)]

  function Creates(tx: Option<nat>, quote: nat): Rec {
    Rec(Some(Provision(Creating, tx, None, None)), quote, 0, true)
  }

  function Snapshot(a: Rec, b: Rec, w: Worker, txs: seq<Tx>): State { State([a, b], [a, b], w, txs, [NoMiss, NoMiss]) }

  const Unpaid5 := Rec(None, 5, 0, true)
  const Unpaid7 := Rec(None, 7, 0, true)

  lemma PhaseOne()
    ensures Run(Initial, TwoPaidOrders) == Snapshot(Unpaid5, Unpaid7, Idle, [])
  {
    RunFour(Initial, NewOrder(5), NewOrder(7), SetReady(0, true), SetReady(1, true));
  }

  lemma PhaseTwo(s: State)
    requires s == Snapshot(Unpaid5, Unpaid7, Idle, [])
    ensures Run(s, FirstCreates)
         == Snapshot(Creates(None, 5), Unpaid7, Busy(0, 0, 5, CreateSent(0)), [Tx(0, CreateTx, Pending)])
  {
    RunFour(s, Begin(0), PlanAnswer(Unknown, Unknown), WriteAhead, BroadcastCreate);
    hide Run;
    var s1 := Next(s, Begin(0));
    assert s1 == s.(worker := Busy(0, 0, 5, Planning));
    StartsCreate(s1, 0);
    var s3 := Next(Next(s1, PlanAnswer(Unknown, Unknown)), WriteAhead);
    hide Next;
    assert [Unpaid5, Unpaid7][0 := Creates(None, 5)] == [Creates(None, 5), Unpaid7];
    assert s3 == Snapshot(Creates(None, 5), Unpaid7, Busy(0, 0, 5, CreateSending), []);
    Sends(s3);
    assert [] + [Tx(0, CreateTx, Pending)] == [Tx(0, CreateTx, Pending)];
  }

  /** A record-less order is planned, and its step written ahead. */
  lemma StartsCreate(s: State, o: nat)
    requires o < |s.mem| && s.mem[o].prov.None? && s.worker.Busy? && s.worker.order == o && s.worker.pc.Planning?
    ensures var mem := s.mem[o := s.mem[o].(prov := Some(Provision(Creating, None, None, None)))];
            Next(Next(s, PlanAnswer(Unknown, Unknown)), WriteAhead)
            == s.(mem := mem, disk := mem, worker := s.worker.(pc := CreateSending))
  {
    assert Next(s, PlanAnswer(Unknown, Unknown)) == s.(worker := s.worker.(pc := ToCreate));
  }

  lemma Sends(s: State)
    requires s.worker.Busy? && s.worker.order < |s.mem| && s.worker.pc.CreateSending?
    ensures Next(s, BroadcastCreate)
            == s.(txs := s.txs + [Tx(s.worker.order, CreateTx, Pending)], worker := s.worker.(pc := CreateSent(|s.txs|)))
  {}

  lemma Records(s: State, t: nat)
    requires s.worker.Busy? && s.worker.order < |s.mem| && s.worker.pc == CreateSent(t)
    requires s.mem[s.worker.order].prov == Some(Provision(Creating, None, None, None))
    ensures var o := s.worker.order;
            var mem := s.mem[o := s.mem[o].(prov := Some(Provision(Creating, Some(t), None, None)))];
            Next(s, RecordCreate) == s.(mem := mem, disk := mem, worker := s.worker.(pc := AwaitCreate(t)))
  {}

  /** The wait for a receipt times out, and the chain settles the create after that. */
  lemma TimesOut(s: State, t: nat, st: Status)
    requires s.worker.Busy? && s.worker.pc == AwaitCreate(t) && t < |s.txs| && s.txs[t].status.Pending?
    ensures Next(Next(s, Throws), ChainSettles(t, st)) == s.(worker := Idle, txs := s.txs[t := s.txs[t].(status := st)])
  {
    hide OnWorker;
    assert Next(s, Throws) == s.(worker := Idle);
  }

  lemma Begins(s: State, o: nat)
    requires s.worker.Idle? && o < |s.mem| && s.mem[o].ready
    ensures Next(s, Begin(o)) == s.(worker := Attempt(o, s.mem[o], Planning))
  {}

  lemma PhaseThree(s: State)
    requires s == Snapshot(Creates(None, 5), Unpaid7, Busy(0, 0, 5, CreateSent(0)), [Tx(0, CreateTx, Pending)])
    ensures Run(s, FirstMinesLate)
         == Snapshot(Creates(Some(0), 5), Unpaid7, Busy(1, 0, 7, Planning), [Tx(0, CreateTx, Success)])
  {
    RunFour(s, RecordCreate, Throws, ChainSettles(0, Success), Begin(1));
    hide Run, Next;
    Records(s, 0);
    var s1 := Next(s, RecordCreate);
    assert s1 == Snapshot(Creates(Some(0), 5), Unpaid7, Busy(0, 0, 5, AwaitCreate(0)), [Tx(0, CreateTx, Pending)]);
    TimesOut(s1, 0, Success);
    Begins(Next(Next(s1, Throws), ChainSettles(0, Success)), 1);
  }

  lemma PhaseFour(s: State)
    requires s == Snapshot(Creates(Some(0), 5), Unpaid7, Busy(1, 0, 7, Planning), [Tx(0, CreateTx, Success)])
    ensures Run(s, SecondCreates)
         == Snapshot(Creates(Some(0), 5), Creates(Some(1), 7), Busy(1, 0, 7, AwaitCreate(1)),
                     [Tx(0, CreateTx, Success), Tx(1, CreateTx, Pending)])
  {
    RunFour(s, PlanAnswer(Unknown, Unknown), WriteAhead, BroadcastCreate, RecordCreate);
    hide Run, Next;
    StartsCreate(s, 1);
    var s1 := Next(Next(s, PlanAnswer(Unknown, Unknown)), WriteAhead);
    assert s1 == Snapshot(Creates(Some(0), 5), Creates(None, 7), Busy(1, 0, 7, CreateSending), [Tx(0, CreateTx, Success)]);
    Sends(s1);
    var s2 := Next(s1, BroadcastCreate);
    assert s2 == Snapshot(Creates(Some(0), 5), Creates(None, 7), Busy(1, 0, 7, CreateSent(1)),
                          [Tx(0, CreateTx, Success), Tx(1, CreateTx, Pending)]);
    Records(s2, 1);
  }

  lemma PhaseFive(s: State)
    requires s == Snapshot(Creates(Some(0), 5), Creates(Some(1), 7), Busy(1, 0, 7, AwaitCreate(1)),
                           [Tx(0, CreateTx, Success), Tx(1, CreateTx, Pending)])
    ensures Run(s, SecondIsDropped)
         == Snapshot(Creates(Some(0), 5), Creates(Some(1), 7), Busy(1, 0, 7, Adopting),
                     [Tx(0, CreateTx, Success), Tx(1, CreateTx, Dropped)])
  {
    RunFour(s, Throws, ChainSettles(1, Dropped), Begin(1), PlanAnswer(Unknown, Unknown));
    hide Run, Next;
    TimesOut(s, 1, Dropped);
    var s1 := Next(Next(s, Throws), ChainSettles(1, Dropped));
    Begins(s1, 1);
    Denied(Next(s1, Begin(1)), 1);
  }

  lemma Denied(s: State, t: nat)
    requires s.worker.Busy? && s.worker.order < |s.mem| && s.worker.pc.Planning? && t < |s.txs|
    requires s.mem[s.worker.order].prov == Some(Provision(Creating, Some(t), None, None))
    ensures Next(s, PlanAnswer(Unknown, Unknown)) == s.(worker := s.worker.(pc := Adopting))
  {}

  lemma ScanAdopts(s: State)
    requires s == Snapshot(Creates(Some(0), 5), Creates(Some(1), 7), Busy(1, 0, 7, Adopting),
                           [Tx(0, CreateTx, Success), Tx(1, CreateTx, Dropped)])
    ensures var s' := Next(s, Scan(Some({0})));
            |s'.mem| == 2 && |s'.txs| == 2
            && DepOf(s'.mem[1].prov) == Some(0) && s'.txs[0].order == 0 && Stuck(s', 0, 0)
  {
    assert Mapped(s.mem) == {};
    assert {0} - Mapped(s.mem) == {0};
  }

  /** Adoption takes the one unmapped create for this order's own, but it may be another
      order's whose wait timed out: a run in which order 1 records the deployment order 0
      created, and order 0 is stuck. */
  lemma AdoptionTakesAnotherOrdersDeployment() returns (es: seq<Event>)
    ensures var s := Run(Initial, es);
            |s.mem| == 2 && |s.txs| == 2 && DepOf(s.mem[1].prov) == Some(0) && s.txs[0].order == 0 && Stuck(s, 0, 0)
  {
    es := TwoPaidOrders;
    PhaseOne();
    es := Extend(es, FirstCreates);
    PhaseTwo(Run(Initial, TwoPaidOrders));
    ghost var s2 := Run(Initial, es);
    es := Extend(es, FirstMinesLate);
    PhaseThree(s2);
    ghost var s3 := Run(Initial, es);
    es := Extend(es, SecondCreates);
    PhaseFour(s3);
    ghost var s4 := Run(Initial, es);
    es := Extend(es, SecondIsDropped);
    PhaseFive(s4);
    ghost var s5 := Run(Initial, es);
    es := Extend(es, [Scan(Some({0}))]);
    RunOne(s5, Scan(Some({0})));
    ScanAdopts(s5);
  }

  lemma Extend(es: seq<Event>, more: seq<Event>) returns (all: seq<Event>)
    ensures Run(Initial, all) == Run(Run(Initial, es), more)
  {
    all := es + more;
    RunConcat(Initial, es, more);
  }

  lemma RunOne(s: State, e: Event)
    ensures Run(s, [e]) == Next(s, e)
  {
    assert [e][1..] == [];
  }

  // --- the worker, updating order records in place -------------------------------------------

  /** Each method is one stretch of provisionOrder between awaits, proved to be that step. */
  class OrderWorker {
    var orders: seq<Rec>
    var onDisk: seq<Rec>
    var worker: Worker
    ghost var txs: seq<Tx>
    ghost var tally: seq<Tally>

    ghost function View(): State
      reads this
    {
      State(orders, onDisk, worker, txs, tally)
    }

    /** The worker is inside this order's attempt, at this await. */
    ghost predicate Inside(pc: Pc)
      reads this
    {
      worker.Busy? && worker.order < |orders| && worker.pc == pc
    }

    /** `order.provision = ...; cfg.orders.flush()` */
    method Save(r: Rec)
      requires worker.Busy? && worker.order < |orders|
      modifies this`orders, this`onDisk
      ensures View() == Put(old(View()), worker.order, r)
    {
      orders := orders[worker.order := r];
      onDisk := orders;
    }

    /** provisionOrder's own amount, read when the worker takes the order up. */
    method Begin(o: nat)
      requires worker.Idle? && o < |orders| && orders[o].ready
      modifies this`worker
      ensures View() == Next(old(View()), Event.Begin(o))
    {
      var paid, quote := orders[o].paid, orders[o].quote;
      var amount := if paid > 0 then (if paid < quote then paid else quote) else quote;
      worker := Busy(o, paid, amount, Planning);
    }

    method PlanRecord(create: Receipt, fund: Receipt)
      requires Inside(Planning)
      requires Answers(txs, HashOf(orders[worker.order].prov, false), create)
      requires Answers(txs, HashOf(orders[worker.order].prov, true), fund)
      modifies this
      ensures View() == Next(old(View()), PlanAnswer(create, fund))
    {
      match PlanRecovery(orders[worker.order].prov, create, fund)
      case Hold => worker := Idle;
      case SendCreate => worker := worker.(pc := ToCreate);
      case AdoptOrResend => worker := worker.(pc := Adopting);
      case _ => worker := worker.(pc := FundCheck);
    }

    /** The deployments some order already recorded. */
    method MappedIds() returns (mapped: set<nat>)
      ensures mapped == Mapped(orders)
    {
      mapped := {};
      for i := 0 to |orders|
        invariant mapped == Mapped(orders[..i])
      {
        var p := orders[i].prov;
        assert orders[..i + 1] == orders[..i] + [orders[i]];
        MappedAppend(orders[..i], orders[i]);
        if p.Some? && p.value.dep.Some? { mapped := mapped + {p.value.dep.value}; }
      }
      assert orders[..|orders|] == orders;
    }

    method AdoptOrphanCreate(logs: set<nat>)
      requires Inside(Adopting)
      requires forall t <- logs :: t < |txs| && txs[t].kind.CreateTx? && txs[t].status.Success?
      modifies this
      ensures View() == Next(old(View()), Scan(Some(logs)))
    {
      hide OnPlan, OnCreateReceipt, OnFundAnswer, OnBroadcastFund, OnWriteAhead, Finish, Mapped, Amount;
      var mapped := MappedIds();
      var orphans := logs - mapped;
      if |orphans| == 1 {
        var t :| t in orphans;
        SoleIs(orphans, t);
        var r := orders[worker.order];
        r := r.(prov := Some(Provision(Funding, Some(t), Some(t), HashOf(r.prov, true))));
        Save(r);
        worker := Attempt(worker.order, r, Planning);
      } else if |orphans| > 1 {
        worker := Idle;
      } else {
        worker := worker.(pc := ToCreate);
      }
    }

    method WriteAheadCreate()
      requires Inside(ToCreate)
      modifies this
      ensures View() == Next(old(View()), WriteAhead)
    {
      ghost var denied := !Dead(txs, HashOf(orders[worker.order].prov, false));
      Save(orders[worker.order].(prov := Some(Provision(Creating, None, None, None))));
      worker := worker.(pc := CreateSending);
      tally := Count(View(), worker.order, if denied then NoMiss.(deniedCreates := 1) else NoMiss).tally;
    }

    method SaveCreateHash(t: nat)
      requires Inside(CreateSent(t)) && orders[worker.order].prov.Some?
      modifies this
      ensures View() == Next(old(View()), RecordCreate)
    {
      var r := orders[worker.order];
      Save(r.(prov := Some(r.prov.value.(txCreate := Some(t)))));
      worker := worker.(pc := AwaitCreate(t));
    }

    method CreateMined(t: nat, ok: bool)
      requires Inside(AwaitCreate(t)) && orders[worker.order].prov.Some?
      requires t < |txs| && txs[t].status == if ok then Success else Reverted
      modifies this
      ensures View() == Next(old(View()), CreateReceipt(ok))
    {
      if ok {
        var r := orders[worker.order];
        Save(r.(prov := Some(r.prov.value.(dep := Some(t), step := Funding))));
        worker := worker.(pc := FundCheck);
      } else {
        worker := Idle;
      }
    }

    /** `provision.step = "done"; setOrderState(order, "complete")` */
    method Done()
      requires worker.Busy? && worker.order < |orders| && orders[worker.order].prov.Some?
      modifies this
      ensures View() == Finish(old(View()))
    {
      var r := orders[worker.order];
      Save(r.(prov := Some(r.prov.value.(step := Finished)), ready := false));
      worker := Idle;
    }

    method CheckFund(fund: Receipt)
      requires Inside(FundCheck)
      requires Answers(txs, HashOf(orders[worker.order].prov, true), fund)
      modifies this
      ensures View() == Next(old(View()), FundAnswer(fund))
    {
      var p := orders[worker.order].prov;
      if p.None? || p.value.dep.None? || fund == InMempool {
        worker := Idle;
      } else if PlanRecovery(p, Unknown, fund) != Complete {
        worker := worker.(pc := ToFund);
      } else {
        Done();
      }
    }

    method SaveFundHash(t: nat)
      requires Inside(FundSent(t)) && orders[worker.order].prov.Some?
      modifies this
      ensures View() == Next(old(View()), RecordFund)
    {
      var r := orders[worker.order];
      Save(r.(prov := Some(r.prov.value.(txFund := Some(t)))));
      worker := worker.(pc := AwaitFund(t));
    }

    method FundMined(t: nat, ok: bool)
      requires Inside(AwaitFund(t)) && orders[worker.order].prov.Some?
      requires t < |txs| && txs[t].status == if ok then Success else Reverted
      modifies this
      ensures View() == Next(old(View()), FundReceipt(ok))
    {
      if ok { Done(); } else { worker := Idle; }
    }
  }

  lemma MappedAppend(rs: seq<Rec>, r: Rec)
    ensures Mapped(rs + [r]) == Mapped(rs) + if DepOf(r.prov).Some? then {DepOf(r.prov).value} else {}
  {
    var all := rs + [r];
    assert forall o | 0 <= o < |rs| :: all[o] == rs[o];
    assert all[|rs|] == r;
  }

  lemma SoleIs(ts: set<nat>, t: nat)
    requires |ts| == 1 && t in ts
    ensures Sole(ts) == t
  {
    assert Sole(ts) in ts;
  }
}
