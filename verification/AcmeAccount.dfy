/** One CA slot's account (relay/certs.js): registration is serialized behind one promise,
    the account is published only once the CA has named it, and a dead account is dropped
    by whichever order notices first. Every order on the slot interleaves freely: an event
    is one stretch of code between two awaits, a step of the CA, or a restart. */
module AcmeAccount {
  import opened Common

  /** What the store keeps sealed: the CA's name for the account and the key it was made with. */
  datatype Pair = Pair(kid: nat, key: nat)

  /** An account in memory; `obj` is the object's identity, which `!==` compares. */
  datatype Acct = Acct(obj: nat, pair: Pair)

  datatype Outcome = Running | Gave(acct: Acct) | Threw

  /** A registration promise, and whether its `then` callback has run. */
  datatype Promise = Promise(key: nat, outcome: Outcome, cleared: bool)

  datatype Phase = Waiting(p: nat) | Holding(acct: Acct)

  /** An order inside withAccount, on its first run or its one retry. */
  datatype Order = Order(phase: Phase, retried: bool)

  datatype State = State(
    account: Option<Acct>, registering: Option<nat>,
    stored: Option<Pair>,          // durable: every save is a flush
    promises: seq<Promise>, orders: map<nat, Order>,
    made: nat,                     // objects and keys made so far
    named: set<Pair>,              // the pairs the CA itself registered
    dropped: seq<Pair>)

  const Initial := State(None, None, None, [], map[], 0, {}, [])

  datatype Event =
    | Ask(o: nat, opens: bool)          // an order starts; does the stored blob open?
    | CaNames(p: nat, kid: nat)         // the CA registers the key
    | Registered(p: nat, kid: nat)      // its reply arrives
    | RegistrationFails(p: nat)         // or an error, or nothing
    | FlagClears(p: nat)
    | Resume(o: nat)
    | AccountLost(o: nat, opens: bool)  // the CA disowns the account this order signs with
    | Ends(o: nat)
    | Restart

  /** acmeAccount up to its first await. */
  function OnAsk(s: State, o: nat, retried: bool, opens: bool): State {
    if s.account.Some? then s.(orders := s.orders[o := Order(Holding(s.account.value), retried)])
    else if s.registering.Some? then s.(orders := s.orders[o := Order(Waiting(s.registering.value), retried)])
    else
      var p := |s.promises|;
      var s1 := s.(orders := s.orders[o := Order(Waiting(p), retried)], registering := Some(p), made := s.made + 1);
      if s.stored.Some? && opens then
        var loaded := Acct(s.made, s.stored.value);
        s1.(account := Some(loaded), promises := s.promises + [Promise(s.stored.value.key, Gave(loaded), false)])
      else s1.(promises := s.promises + [Promise(s.made, Running, false)])
  }

  predicate IsRunning(s: State, p: nat) { p < |s.promises| && s.promises[p].outcome.Running? }

  function Settle(s: State, p: nat, outcome: Outcome): State
    requires p < |s.promises|
  {
    s.(promises := s.promises[p := s.promises[p].(outcome := outcome)])
  }

  /** The rest of the registration: name, persist, publish. */
  function OnRegistered(s: State, p: nat, kid: nat): State {
    if !IsRunning(s, p) || Pair(kid, s.promises[p].key) !in s.named then s
    else
      var acct := Acct(s.made, Pair(kid, s.promises[p].key));
      Settle(s, p, Gave(acct)).(stored := Some(acct.pair), account := Some(acct), made := s.made + 1)
  }

  function OnFlagClears(s: State, p: nat): State {
    if p >= |s.promises| || s.promises[p].outcome.Running? || s.promises[p].cleared then s
    else
      s.(promises := s.promises[p := s.promises[p].(cleared := true)],
         registering := if s.registering == Some(p) then None else s.registering)
  }

  function OnResume(s: State, o: nat): State {
    if o !in s.orders || !s.orders[o].phase.Waiting? || s.orders[o].phase.p >= |s.promises| then s
    else match s.promises[s.orders[o].phase.p].outcome
      case Running => s
      case Gave(acct) => s.(orders := s.orders[o := s.orders[o].(phase := Holding(acct))])
      case Threw => s.(orders := s.orders - {o})
  }

  /** dropAccount. */
  function Drop(s: State, dead: Acct): State {
    if s.registering.Some? || s.account != Some(dead) then s
    else s.(account := None, stored := None, dropped := s.dropped + [dead.pair])
  }

  /** withAccount's catch: drop and run once more, or give up. */
  function OnAccountLost(s: State, o: nat, opens: bool): State {
    if o !in s.orders || !s.orders[o].phase.Holding? then s
    else if s.orders[o].retried then s.(orders := s.orders - {o})
    else OnAsk(Drop(s, s.orders[o].phase.acct), o, true, opens)
  }

  function Next(s: State, e: Event): State {
    match e
    case Ask(o, opens) => if o in s.orders then s else OnAsk(s, o, false, opens)
    case CaNames(p, kid) => if IsRunning(s, p) then s.(named := s.named + {Pair(kid, s.promises[p].key)}) else s
    case Registered(p, kid) => OnRegistered(s, p, kid)
    case RegistrationFails(p) => if IsRunning(s, p) then Settle(s, p, Threw) else s
    case FlagClears(p) => OnFlagClears(s, p)
    case Resume(o) => OnResume(s, o)
    case AccountLost(o, opens) => OnAccountLost(s, o, opens)
    case Ends(o) => s.(orders := s.orders - {o})
    case Restart => s.(account := None, registering := None, promises := [], orders := map[])
  }

  function Run(s: State, es: seq<Event>): State
    decreases |es|
  {
    if es == [] then s else Run(Next(s, es[0]), es[1..])
  }

  // --- the invariant --------------------------------------------------------------------------

  predicate Known(s: State, a: Acct) { a.obj < s.made && a.pair.key < s.made && a.pair in s.named }

  predicate PromiseOk(s: State, p: nat)
    requires p < |s.promises|
  {
    && s.promises[p].key < s.made
    && (s.promises[p].outcome.Running? ==> !s.promises[p].cleared)
    && (!s.promises[p].cleared ==> s.registering == Some(p))
    && (s.promises[p].outcome.Running? ==>
          s.account.None? && (s.stored.Some? ==> s.stored.value.key != s.promises[p].key)
          && forall d <- s.dropped :: d.key != s.promises[p].key)
    && (s.promises[p].outcome.Gave? ==> Known(s, s.promises[p].outcome.acct))
  }

  predicate OrderOk(s: State, o: nat)
    requires o in s.orders
  {
    match s.orders[o].phase
    case Waiting(p) => p < |s.promises|
    case Holding(a) => Known(s, a)
  }

  predicate SlotOk(s: State) {
    && (s.account.Some? ==> s.stored == Some(s.account.value.pair) && s.account.value.obj < s.made)
    && (s.stored.Some? ==> s.stored.value in s.named && s.stored.value !in s.dropped && s.stored.value.key < s.made)
    && (s.registering.Some? ==> s.registering.value < |s.promises| && !s.promises[s.registering.value].cleared)
  }

  predicate Distinct(xs: seq<Pair>) { forall i, j | 0 <= i < j < |xs| :: xs[i] != xs[j] }

  predicate DroppedOk(s: State) { Distinct(s.dropped) && forall d <- s.dropped :: d.key < s.made }

  predicate Inv(s: State) {
    && SlotOk(s) && DroppedOk(s)
    && (forall p | 0 <= p < |s.promises| :: PromiseOk(s, p))
    && (forall o <- s.orders :: OrderOk(s, o))
  }

  lemma AskKeepsInv(s: State, o: nat, retried: bool, opens: bool)
    requires Inv(s)
    ensures Inv(OnAsk(s, o, retried, opens))
  {
    var t := OnAsk(s, o, retried, opens);
    forall p | 0 <= p < |t.promises| ensures PromiseOk(t, p) {
      if p < |s.promises| { assert PromiseOk(s, p); }
    }
    forall q <- t.orders ensures OrderOk(t, q) {
      if q != o { assert OrderOk(s, q); }
    }
  }

  lemma DropKeepsInv(s: State, dead: Acct)
    requires Inv(s)
    ensures Inv(Drop(s, dead))
  {
    var t := Drop(s, dead);
    forall p | 0 <= p < |t.promises| ensures PromiseOk(t, p) { assert PromiseOk(s, p); }
    forall o <- t.orders ensures OrderOk(t, o) { assert OrderOk(s, o); }
  }

  lemma RegisteredKeepsInv(s: State, p: nat, kid: nat)
    requires Inv(s)
    ensures Inv(OnRegistered(s, p, kid))
  {
    var t := OnRegistered(s, p, kid);
    if t != s {
      assert PromiseOk(s, p);
      forall q | 0 <= q < |t.promises| ensures PromiseOk(t, q) { assert PromiseOk(s, q); }
      forall o <- t.orders ensures OrderOk(t, o) { assert OrderOk(s, o); }
    }
  }

  lemma FlagKeepsInv(s: State, p: nat)
    requires Inv(s)
    ensures Inv(OnFlagClears(s, p))
  {
    var t := OnFlagClears(s, p);
    forall q | 0 <= q < |t.promises| ensures PromiseOk(t, q) { assert PromiseOk(s, q); }
    forall o <- t.orders ensures OrderOk(t, o) { assert OrderOk(s, o); }
  }

  lemma StepKeepsInv(s: State, e: Event)
    requires Inv(s)
    ensures Inv(Next(s, e))
  {
    hide Known;
    match e
    case Ask(o, opens) => AskKeepsInv(s, o, false, opens);
    case Registered(p, kid) => RegisteredKeepsInv(s, p, kid);
    case FlagClears(p) => FlagKeepsInv(s, p);
    case AccountLost(o, opens) =>
      if o in s.orders && s.orders[o].phase.Holding? && !s.orders[o].retried {
        DropKeepsInv(s, s.orders[o].phase.acct);
        AskKeepsInv(Drop(s, s.orders[o].phase.acct), o, true, opens);
      } else {
        OthersKeepInv(s, e);
      }
    case CaNames(_, _) => RegistrationKeepsInv(s, e);
    case RegistrationFails(_) => RegistrationKeepsInv(s, e);
    case _ => OthersKeepInv(s, e);
  }

  lemma RegistrationKeepsInv(s: State, e: Event)
    requires Inv(s) && (e.CaNames? || e.RegistrationFails?)
    ensures Inv(Next(s, e))
  {
    var t := Next(s, e);
    forall p | 0 <= p < |t.promises| ensures PromiseOk(t, p) { assert PromiseOk(s, p); }
    forall o <- t.orders ensures OrderOk(t, o) { assert OrderOk(s, o); }
  }

  lemma OthersKeepInv(s: State, e: Event)
    requires Inv(s)
    requires e.Resume? || e.Ends? || e.Restart?
             || (e.AccountLost? && !(e.o in s.orders && s.orders[e.o].phase.Holding? && !s.orders[e.o].retried))
    ensures Inv(Next(s, e))
  {
    var t := Next(s, e);
    KnownStays(s, t);
    hide Known;
    assert SlotOk(t) && DroppedOk(t);
    hide SlotOk, DroppedOk;
    forall p | 0 <= p < |t.promises| ensures PromiseOk(t, p) { assert PromiseOk(s, p); }
    hide PromiseOk;
    forall o <- t.orders ensures OrderOk(t, o) { OthersKeepOrder(s, e, o); }
  }

  lemma OthersKeepOrder(s: State, e: Event, o: nat)
    requires Inv(s) && o in Next(s, e).orders
    requires e.Resume? || e.Ends? || e.Restart?
             || (e.AccountLost? && !(e.o in s.orders && s.orders[e.o].phase.Holding? && !s.orders[e.o].retried))
    ensures OrderOk(Next(s, e), o)
  {
    KnownStays(s, Next(s, e));
    hide Known, SlotOk, DroppedOk;
    assert OrderOk(s, o);
    if s.orders[o].phase.Waiting? { assert PromiseOk(s, s.orders[o].phase.p); }
  }

  lemma KnownStays(s: State, t: State)
    requires s.made == t.made && s.named == t.named
    ensures forall a :: Known(s, a) == Known(t, a)
  {}

  lemma {:induction false} RunKeepsInv(s: State, es: seq<Event>)
    requires Inv(s)
    ensures Inv(Run(s, es))
    decreases |es|
  {
    if es != [] {
      StepKeepsInv(s, es[0]);
      RunKeepsInv(Next(s, es[0]), es[1..]);
    }
  }

  // --- main results --------------------------------------------------------------------------------

  /** Under every interleaving of orders, replies and restarts, at most one registration of
      this slot is in flight. */
  lemma OneRegistrationInFlight(es: seq<Event>, p: nat, q: nat)
    requires IsRunning(Run(Initial, es), p) && IsRunning(Run(Initial, es), q)
    ensures p == q
  {
    RunKeepsInv(Initial, es);
    var s := Run(Initial, es);
    assert PromiseOk(s, p) && PromiseOk(s, q);
  }

  /** A published account is the persisted one, key and name together, and so is every
      account an order signs with: a pair the CA itself made. */
  lemma SlotMatchesStore(es: seq<Event>)
    ensures var s := Run(Initial, es);
            && (s.account.Some? ==> s.stored == Some(s.account.value.pair) && s.account.value.pair in s.named)
            && forall o <- s.orders :: s.orders[o].phase.Holding? ==> s.orders[o].phase.acct.pair in s.named
  {
    RunKeepsInv(Initial, es);
    var s := Run(Initial, es);
    forall o <- s.orders ensures s.orders[o].phase.Holding? ==> s.orders[o].phase.acct.pair in s.named {
      assert OrderOk(s, o);
    }
  }

  /** However many orders see the same dead account, it is dropped at most once, ever. */
  lemma DeadAccountDroppedOnce(es: seq<Event>)
    ensures Distinct(Run(Initial, es).dropped)
  {
    RunKeepsInv(Initial, es);
  }

  /** And a replacement is never dropped for it: within a process, the account on the slot
      and the stored pair go away only when an order that signs with this very account is
      told it is gone, and then both go together. */
  lemma OnlyTheDeadAccountIsDropped(es: seq<Event>, e: Event)
    requires !e.Restart?
    ensures var s, t := Run(Initial, es), Next(Run(Initial, es), e);
            s.account.Some? && (t.account != s.account || t.stored != s.stored) ==>
              && e.AccountLost? && e.o in s.orders && s.orders[e.o].phase == Holding(s.account.value)
              && t.account.None? && t.stored.None? && t.dropped == s.dropped + [s.account.value.pair]
  {
    RunKeepsInv(Initial, es);
    var s := Run(Initial, es);
    if e.Registered? && IsRunning(s, e.p) { assert PromiseOk(s, e.p); }
  }

  // --- what an order gets ---------------------------------------------------------------------------

  /** Nothing is on the slot, and nothing under way. */
  predicate Bare(s: State) { s.account.None? && s.registering.None? }

  /** The order signs with this account, and it is the slot's. */
  predicate SignsWith(s: State, o: nat, a: Acct) {
    o in s.orders && s.orders[o].phase == Holding(a) && s.account == Some(a) && s.stored == Some(a.pair)
  }

  /** On a bare slot with no stored account that opens, an order makes one: registered with a new
      key, named by the CA, stored, published and signed with, and the slot is free again. */
  lemma RegistersAnew(s: State, o: nat, retried: bool, opens: bool, kid: nat)
    requires Bare(s) && !(s.stored.Some? && opens)
    ensures var p, asked := |s.promises|, OnAsk(s, o, retried, opens);
            var made := Next(Next(Next(Next(asked, CaNames(p, kid)), Registered(p, kid)), FlagClears(p)), Resume(o));
            var a := Acct(s.made + 1, Pair(kid, s.made));
            && IsRunning(asked, p) && asked.registering == Some(p) && |asked.promises| == p + 1
            && SignsWith(made, o, a) && made.registering.None? && made.orders[o].retried == retried
            && made.dropped == s.dropped
  {
    var p, asked := |s.promises|, OnAsk(s, o, retried, opens);
    var named := Next(asked, CaNames(p, kid));
    hide OnAsk;
    Registers(named, p, kid, o);
  }

  lemma Registers(s: State, p: nat, kid: nat, o: nat)
    requires IsRunning(s, p) && Pair(kid, s.promises[p].key) in s.named && s.registering == Some(p) && !s.promises[p].cleared
    requires o in s.orders && s.orders[o].phase == Waiting(p)
    ensures var made := Next(Next(Next(s, Registered(p, kid)), FlagClears(p)), Resume(o));
            var a := Acct(s.made, Pair(kid, s.promises[p].key));
            SignsWith(made, o, a) && made.registering.None? && made.orders[o].retried == s.orders[o].retried
            && made.dropped == s.dropped
  {}

  /** A registration that fails ends the orders that waited for it, and leaves the slot bare for the
      next one to try again. */
  lemma FailedRegistrationEnds(s: State, o: nat, retried: bool, opens: bool)
    requires Bare(s) && !(s.stored.Some? && opens)
    ensures var p, asked := |s.promises|, OnAsk(s, o, retried, opens);
            var t := Next(Next(Next(asked, RegistrationFails(p)), FlagClears(p)), Resume(o));
            Bare(t) && o !in t.orders && t.stored == s.stored
  {}

  /** After a restart the stored account is loaded and signed with; nothing is registered. */
  lemma StoredAccountServes(s: State, o: nat, retried: bool)
    requires Bare(s) && s.stored.Some?
    ensures var p, asked := |s.promises|, OnAsk(s, o, retried, true);
            var t := Next(Next(asked, FlagClears(p)), Resume(o));
            && SignsWith(t, o, Acct(s.made, s.stored.value)) && t.registering.None? && !IsRunning(asked, p)
            && t.named == s.named && t.stored == s.stored
  {}

  /** An order that asks while another's registration runs starts none: it waits for the same
      one and signs with the same account; on a slot that has one it signs with that at once. */
  lemma SiblingsShare(s: State, o: nat, retried: bool, opens: bool, p: nat, kid: nat)
    ensures s.account.None? && s.registering == Some(p) && IsRunning(s, p) && !s.promises[p].cleared ==>
              var asked := OnAsk(s, o, retried, opens);
              var named := Next(asked, CaNames(p, kid));
              var t := Next(Next(Next(named, Registered(p, kid)), FlagClears(p)), Resume(o));
              asked.promises == s.promises && SignsWith(t, o, Acct(s.made, Pair(kid, s.promises[p].key)))
    ensures s.account.Some? ==> OnAsk(s, o, retried, opens) == s.(orders := s.orders[o := Order(Holding(s.account.value), retried)])
  {
    if s.account.None? && s.registering == Some(p) && IsRunning(s, p) && !s.promises[p].cleared {
      Registers(Next(OnAsk(s, o, retried, opens), CaNames(p, kid)), p, kid, o);
    }
  }

  /** An order whose account the CA disowns drops it and gets a new one, once; it is not given a
      second retry, and one that is late finds the replacement. */
  lemma LostAccountIsReplaced(s: State, o: nat, dead: Acct, opens: bool, kid: nat)
    requires SignsWith(s, o, dead) && s.registering.None?
    ensures s.orders[o].retried ==> Next(s, AccountLost(o, opens)) == s.(orders := s.orders - {o})
    ensures !s.orders[o].retried ==>
              var p, lost := |s.promises|, Next(s, AccountLost(o, opens));
              var made := Next(Next(Next(Next(lost, CaNames(p, kid)), Registered(p, kid)), FlagClears(p)), Resume(o));
              && lost.dropped == s.dropped + [dead.pair] && lost.account.None? && lost.stored.None?
              && SignsWith(made, o, Acct(s.made + 1, Pair(kid, s.made))) && made.orders[o].retried
  {
    if !s.orders[o].retried { RegistersAnew(Drop(s, dead), o, true, opens, kid); }
  }

  lemma LateLoserFindsReplacement(s: State, o: nat, dead: Acct, opens: bool)
    requires o in s.orders && s.orders[o] == Order(Holding(dead), false) && s.account.Some? && s.account.value != dead
    ensures var t := Next(s, AccountLost(o, opens));
            t == s.(orders := s.orders[o := Order(Holding(s.account.value), true)])
  {}

  // --- the slot, updated in place ---------------------------------------------------------------

  class CaSlot {
    var account: Option<Acct>
    var registering: Option<nat>
    var stored: Option<Pair>
    var promises: seq<Promise>
    var orders: map<nat, Order>
    var made: nat
    ghost var named: set<Pair>
    ghost var dropped: seq<Pair>

    ghost function View(): State
      reads this
    {
      State(account, registering, stored, promises, orders, made, named, dropped)
    }

    constructor ()
      ensures View() == Initial
    {
      account, registering, stored, promises, orders, made := None, None, None, [], map[], 0;
      named, dropped := {}, [];
    }

    /** acmeAccount: the slot's account, the running registration, the store, or a new one. */
    method AcmeAccount(o: nat, retried: bool, opens: bool)
      modifies this
      ensures View() == OnAsk(old(View()), o, retried, opens)
    {
      if account.Some? {
        orders := orders[o := Order(Holding(account.value), retried)];
        return;
      }
      if registering.Some? {
        orders := orders[o := Order(Waiting(registering.value), retried)];
        return;
      }
      if stored.Some? && opens {
        var loaded := Acct(made, stored.value);
        account := Some(loaded);
        promises := promises + [Promise(stored.value.key, Gave(loaded), false)];
      } else {
        promises := promises + [Promise(made, Running, false)];
      }
      made := made + 1;
      registering := Some(|promises| - 1);
      orders := orders[o := Order(Waiting(|promises| - 1), retried)];
    }

    /** The newAccount reply: `kid` when it carries one. */
    method RegistrationReplies(p: nat, kid: Option<nat>)
      requires p < |promises| && promises[p].outcome.Running?
      requires kid.Some? ==> Pair(kid.value, promises[p].key) in named
      modifies this
      ensures View() == Next(old(View()), if kid.Some? then Registered(p, kid.value) else RegistrationFails(p))
    {
      if kid.None? {
        promises := promises[p := promises[p].(outcome := Threw)];
        return;
      }
      var acct := Acct(made, Pair(kid.value, promises[p].key));
      made := made + 1;
      stored := Some(acct.pair);
      account := Some(acct);
      promises := promises[p := promises[p].(outcome := Gave(acct))];
    }

    /** `p.then(() => { if (ca.registering === p) ca.registering = null; })` */
    method ClearFlag(p: nat)
      requires p < |promises| && !promises[p].outcome.Running? && !promises[p].cleared
      modifies this
      ensures View() == Next(old(View()), FlagClears(p))
    {
      promises := promises[p := promises[p].(cleared := true)];
      if registering == Some(p) { registering := None; }
    }

    method DropAccount(dead: Acct)
      modifies this
      ensures View() == Drop(old(View()), dead)
    {
      if registering.Some? { return; }
      if account != Some(dead) { return; }
      account, stored := None, None;
      dropped := dropped + [dead.pair];
    }

    /** withAccount's catch. */
    method RetryLost(o: nat, opens: bool)
      requires o in orders && orders[o].phase.Holding?
      modifies this
      ensures View() == Next(old(View()), AccountLost(o, opens))
    {
      if orders[o].retried {
        orders := orders - {o};
        return;
      }
      DropAccount(orders[o].phase.acct);
      AcmeAccount(o, true, opens);
    }
  }
}
