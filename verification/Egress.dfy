/** From a CONNECT to its reply (egress.js, beginConnect, failPending and the data upgrade):
    the table of connections waiting for a relay, keyed by single-use ids. */
module Egress {
  import opened Common

  datatype Rep = Granted | GeneralFailure | Denied | NetUnreachable | HostUnreachable

  datatype Route = Route(relay: nat, dedicated: bool)

  /** Which relay is the default, and which owns the address block. */
  datatype Relays = Relays(byDefault: nat, owner: nat)

  /** routeEgress: the chosen relay, else the default, else the block's owner. */
  function RouteEgress(chosen: Option<nat>, attached: set<nat>, hasSource: bool, rs: Relays): Option<Route> {
    var want := if chosen.Some? then chosen.value else rs.byDefault;
    var relay := if want in attached then Some(want)
                 else if rs.byDefault in attached then Some(rs.byDefault)
                 else if rs.owner in attached then Some(rs.owner)
                 else None;
    match relay
    case None => None
    case Some(r) =>
      if r == rs.owner then (if hasSource then Some(Route(r, true)) else None) else Some(Route(r, false))
  }

  /** A source is bound only at the relay that owns it, and a connection is refused exactly
      when nothing usable is attached: with no source, the owner does not count, and picking
      it shuts the default out. */
  lemma RouteExactly(chosen: Option<nat>, attached: set<nat>, hasSource: bool, rs: Relays)
    ensures var r := RouteEgress(chosen, attached, hasSource, rs);
            var want := if chosen.Some? then chosen.value else rs.byDefault;
            && (r.Some? ==> r.value.relay in attached && (r.value.dedicated <==> r.value.relay == rs.owner)
                            && (r.value.dedicated ==> hasSource))
            && (want in attached && (want != rs.owner || hasSource) ==> r.Some? && r.value.relay == want)
            && (r.None? <==> if hasSource then {want, rs.byDefault, rs.owner} !! attached
                             else (want in attached && want == rs.owner)
                                  || (want !in attached && (rs.byDefault !in attached || rs.byDefault == rs.owner)))
  {
    var want := if chosen.Some? then chosen.value else rs.byDefault;
    assert {want, rs.byDefault, rs.owner} !! attached
           <==> want !in attached && rs.byDefault !in attached && rs.owner !in attached;
  }

  datatype Reply = Reply(sock: nat, rep: Rep)

  datatype State = State(
    pending: map<nat, nat>,     // connection id -> client socket
    used: set<nat>,             // ids ever drawn
    began: set<nat>,            // sockets whose CONNECT arrived
    replies: seq<Reply>, taken: seq<nat>,
    abandoned: set<nat>)        // taken over by a relay that never finished its upgrade

  const Initial := State(map[], {}, {}, [], [], {})

  datatype Event =
    | Begin(sock: nat, cid: nat, blocked: bool, route: Option<Route>, sent: bool)
    | TimesOut(cid: nat)
    | ClientCloses(cid: nat)
    | RelayRefuses(cid: nat, denied: bool)
    | Upgrade(cid: nat, authorized: bool, completes: bool)

  function FailPending(s: State, cid: nat, rep: Rep): State {
    if cid !in s.pending then s
    else s.(pending := s.pending - {cid}, replies := s.replies + [Reply(s.pending[cid], rep)], taken := s.taken + [cid])
  }

  /** Each socket connects once, and its id is freshly drawn. */
  function BeginConnect(s: State, e: Event): State
    requires e.Begin?
  {
    if e.sock in s.began then s
    else if e.blocked then s.(began := s.began + {e.sock}, replies := s.replies + [Reply(e.sock, Denied)])
    else if e.route.None? then s.(began := s.began + {e.sock}, replies := s.replies + [Reply(e.sock, NetUnreachable)])
    else if e.cid in s.used then s
    else
      var s1 := s.(began := s.began + {e.sock}, used := s.used + {e.cid}, pending := s.pending[e.cid := e.sock]);
      if e.sent then s1 else FailPending(s1, e.cid, NetUnreachable)
  }

  function TakeOver(s: State, cid: nat, completes: bool): State {
    if cid !in s.pending then s
    else
      var s1 := s.(pending := s.pending - {cid}, taken := s.taken + [cid]);
      if completes then s1.(replies := s.replies + [Reply(s.pending[cid], Granted)])
      else s1.(abandoned := s.abandoned + {s.pending[cid]})
  }

  function Next(s: State, e: Event): State {
    match e
    case Begin(_, _, _, _, _) => BeginConnect(s, e)
    case TimesOut(cid) => FailPending(s, cid, HostUnreachable)
    case ClientCloses(cid) => FailPending(s, cid, GeneralFailure)
    case RelayRefuses(cid, denied) => FailPending(s, cid, if denied then Denied else HostUnreachable)
    case Upgrade(cid, authorized, completes) => if authorized then TakeOver(s, cid, completes) else s
  }

  function Run(s: State, es: seq<Event>): State
    decreases |es|
  {
    if es == [] then s else Run(Next(s, es[0]), es[1..])
  }

  // --- the invariant --------------------------------------------------------------------------------

  predicate Answered(s: State, sock: nat) { exists i | 0 <= i < |s.replies| :: s.replies[i].sock == sock }

  predicate Waiting(s: State, sock: nat) { exists c | c in s.pending :: s.pending[c] == sock }

  predicate DistinctSocks(rs: seq<Reply>) { forall i, j | 0 <= i < j < |rs| :: rs[i].sock != rs[j].sock }

  predicate DistinctIds(cs: seq<nat>) { forall i, j | 0 <= i < j < |cs| :: cs[i] != cs[j] }

  predicate IdsOk(s: State) {
    && DistinctIds(s.taken)
    && (forall i | 0 <= i < |s.taken| :: s.taken[i] in s.used && s.taken[i] !in s.pending)
    && (forall c | c in s.pending :: c in s.used)
  }

  /** A waiting socket has begun, waits once, and has been neither answered nor abandoned. */
  predicate SocksOk(s: State) {
    && DistinctSocks(s.replies)
    && (forall i | 0 <= i < |s.replies| :: s.replies[i].sock in s.began && s.replies[i].sock !in s.abandoned)
    && (forall c | c in s.pending :: s.pending[c] in s.began && !Answered(s, s.pending[c]) && s.pending[c] !in s.abandoned)
    && (forall c, d | c in s.pending && d in s.pending :: s.pending[c] == s.pending[d] ==> c == d)
    && (forall k | k in s.abandoned :: k in s.began)
  }

  predicate Accounted(s: State) {
    forall k | k in s.began :: Answered(s, k) || Waiting(s, k) || k in s.abandoned
  }

  predicate Inv(s: State) { IdsOk(s) && SocksOk(s) && Accounted(s) }

  /** Taking an id out, whatever becomes of its socket. */
  lemma TakingKeepsIds(s: State, t: State, cid: nat)
    requires IdsOk(s) && cid in s.pending
    requires t.pending == s.pending - {cid} && t.taken == s.taken + [cid] && t.used == s.used
    ensures IdsOk(t)
  {}

  lemma ReplyKeepsSocks(s: State, t: State, cid: nat, rep: Rep)
    requires SocksOk(s) && Accounted(s) && cid in s.pending
    requires t.pending == s.pending - {cid} && t.replies == s.replies + [Reply(s.pending[cid], rep)]
    requires t.began == s.began && t.abandoned == s.abandoned
    ensures SocksOk(t) && Accounted(t)
  {
    var k := s.pending[cid];
    assert t.replies[|s.replies|].sock == k;
    forall i | 0 <= i < |s.replies| ensures s.replies[i].sock != k { assert !Answered(s, k); }
    forall c | c in t.pending ensures !Answered(t, t.pending[c]) {
      assert !Answered(s, s.pending[c]);
    }
    forall j | j in t.began ensures Answered(t, j) || Waiting(t, j) || j in t.abandoned {
      if Answered(s, j) {
        var i :| 0 <= i < |s.replies| && s.replies[i].sock == j;
        assert t.replies[i].sock == j;
      } else if Waiting(s, j) {
        var c :| c in s.pending && s.pending[c] == j;
        if c != cid { assert t.pending[c] == j; }
      }
    }
  }

  lemma FailKeepsInv(s: State, cid: nat, rep: Rep)
    requires Inv(s)
    ensures Inv(FailPending(s, cid, rep))
  {
    if cid in s.pending {
      TakingKeepsIds(s, FailPending(s, cid, rep), cid);
      ReplyKeepsSocks(s, FailPending(s, cid, rep), cid, rep);
    }
  }

  lemma TakeOverKeepsInv(s: State, cid: nat, completes: bool)
    requires Inv(s)
    ensures Inv(TakeOver(s, cid, completes))
  {
    if cid in s.pending {
      var t := TakeOver(s, cid, completes);
      TakingKeepsIds(s, t, cid);
      if completes {
        ReplyKeepsSocks(s, t, cid, Granted);
      } else {
        AbandonKeepsSocks(s, t, cid);
      }
    }
  }

  lemma AbandonKeepsSocks(s: State, t: State, cid: nat)
    requires SocksOk(s) && Accounted(s) && cid in s.pending
    requires t.pending == s.pending - {cid} && t.replies == s.replies
    requires t.began == s.began && t.abandoned == s.abandoned + {s.pending[cid]}
    ensures SocksOk(t) && Accounted(t)
  {
    forall c | c in t.pending ensures !Answered(t, t.pending[c]) { assert !Answered(s, s.pending[c]); }
    forall i | 0 <= i < |s.replies| ensures s.replies[i].sock != s.pending[cid] { assert !Answered(s, s.pending[cid]); }
    forall j | j in t.began ensures Answered(t, j) || Waiting(t, j) || j in t.abandoned {
      if Answered(s, j) {
        var i :| 0 <= i < |s.replies| && s.replies[i].sock == j;
        assert t.replies[i].sock == j;
      } else if Waiting(s, j) {
        var c :| c in s.pending && s.pending[c] == j;
        if c != cid { assert t.pending[c] == j; }
      }
    }
  }

  /** A CONNECT refused on the spot. */
  lemma RefusalKeepsInv(s: State, sock: nat, rep: Rep)
    requires Inv(s) && sock !in s.began
    ensures Inv(s.(began := s.began + {sock}, replies := s.replies + [Reply(sock, rep)]))
  {
    var t := s.(began := s.began + {sock}, replies := s.replies + [Reply(sock, rep)]);
    assert t.replies[|s.replies|].sock == sock;
    forall c | c in t.pending ensures !Answered(t, t.pending[c]) { assert !Answered(s, s.pending[c]); }
    forall j | j in t.began ensures Answered(t, j) || Waiting(t, j) || j in t.abandoned {
      if j != sock {
        if Answered(s, j) {
          var i :| 0 <= i < |s.replies| && s.replies[i].sock == j;
          assert t.replies[i].sock == j;
        } else if Waiting(s, j) {
          var c :| c in s.pending && s.pending[c] == j;
          assert t.pending[c] == j;
        }
      }
    }
  }

  lemma OpenKeepsInv(s: State, sock: nat, cid: nat)
    requires Inv(s) && sock !in s.began && cid !in s.used
    ensures Inv(s.(began := s.began + {sock}, used := s.used + {cid}, pending := s.pending[cid := sock]))
  {
    var t := s.(began := s.began + {sock}, used := s.used + {cid}, pending := s.pending[cid := sock]);
    assert t.pending[cid] == sock;
    forall c | c in t.pending ensures !Answered(t, t.pending[c]) {
      if c != cid { assert !Answered(s, s.pending[c]); }
    }
    forall j | j in t.began ensures Answered(t, j) || Waiting(t, j) || j in t.abandoned {
      if j != sock {
        if Answered(s, j) {
          var i :| 0 <= i < |s.replies| && s.replies[i].sock == j;
          assert t.replies[i].sock == j;
        } else if Waiting(s, j) {
          var c :| c in s.pending && s.pending[c] == j;
          assert t.pending[c] == j;
        }
      }
    }
  }

  lemma StepKeepsInv(s: State, e: Event)
    requires Inv(s)
    ensures Inv(Next(s, e))
  {
    hide Inv;
    match e
    case Begin(sock, cid, blocked, route, sent) =>
      if sock !in s.began {
        if blocked {
          RefusalKeepsInv(s, sock, Denied);
        } else if route.None? {
          RefusalKeepsInv(s, sock, NetUnreachable);
        } else if cid !in s.used {
          OpenKeepsInv(s, sock, cid);
          FailKeepsInv(s.(began := s.began + {sock}, used := s.used + {cid}, pending := s.pending[cid := sock]), cid, NetUnreachable);
        }
      }
    case TimesOut(cid) => FailKeepsInv(s, cid, HostUnreachable);
    case ClientCloses(cid) => FailKeepsInv(s, cid, GeneralFailure);
    case RelayRefuses(cid, denied) => FailKeepsInv(s, cid, if denied then Denied else HostUnreachable);
    case Upgrade(cid, _, completes) => TakeOverKeepsInv(s, cid, completes);
  }

  lemma {:induction false} RunKeepsInv(s: State, es: seq<Event>)
    requires Inv(s)
    ensures Inv(Run(s, es))
    decreases |es|
  {
    if es != [] {
      StepKeepsInv(s, es[0]);
      RunKeepsInv(Next(s, es[0]), es[1..]);
    }
  }

  // --- main results -----------------------------------------------------------------------------------

  /** Over every run each connection id is consumed at most once, by one failure or one relay,
      and never comes back; each CONNECT gets at most one reply. */
  lemma SingleUseAndOneReply(es: seq<Event>)
    ensures var s := Run(Initial, es);
            && DistinctIds(s.taken) && DistinctSocks(s.replies)
            && forall i | 0 <= i < |s.taken| :: s.taken[i] !in s.pending
  {
    RunKeepsInv(Initial, es);
  }

  /** And none is forgotten: a CONNECT is answered, or still waiting, or was taken over by a
      relay that broke off, exactly one of the three. */
  lemma EveryConnectIsAccountedFor(es: seq<Event>, sock: nat)
    ensures var s := Run(Initial, es);
            sock in s.began ==>
              && (Answered(s, sock) || Waiting(s, sock) || sock in s.abandoned)
              && !(Answered(s, sock) && Waiting(s, sock)) && !(Answered(s, sock) && sock in s.abandoned)
              && !(Waiting(s, sock) && sock in s.abandoned)
  {
    RunKeepsInv(Initial, es);
  }

  // --- which reply, and when ---------------------------------------------------------------------------

  /** The only events that answer a socket, and with what: DENIED for a blocked destination or
      one the relay refuses as such, success only for an authorized upgrade that completes. */
  predicate Causes(s: State, e: Event, sock: nat, rep: Rep) {
    var waits := (cid: nat) => cid in s.pending && s.pending[cid] == sock;
    match rep
    case Granted => e.Upgrade? && e.authorized && e.completes && waits(e.cid)
    case Denied => (e.Begin? && e.sock == sock && sock !in s.began && e.blocked) || (e.RelayRefuses? && e.denied && waits(e.cid))
    case NetUnreachable =>
      e.Begin? && e.sock == sock && sock !in s.began && !e.blocked && (e.route.None? || (e.cid !in s.used && !e.sent))
    case HostUnreachable => (e.TimesOut? && waits(e.cid)) || (e.RelayRefuses? && !e.denied && waits(e.cid))
    case GeneralFailure => e.ClientCloses? && waits(e.cid)
  }

  /** A reply is sent exactly when it is caused. */
  lemma RepliesExactly(s: State, e: Event, sock: nat, rep: Rep)
    requires Inv(s)
    ensures Reply(sock, rep) in Next(s, e).replies <==> Reply(sock, rep) in s.replies || Causes(s, e, sock, rep)
  {
    if e.Begin? && e.sock !in s.began && !e.blocked && e.route.Some? && e.cid !in s.used {
      var s1 := s.(began := s.began + {e.sock}, used := s.used + {e.cid}, pending := s.pending[e.cid := e.sock]);
      assert s1.pending[e.cid] == e.sock;
    }
    hide Inv;
  }

  /** A socket comes to wait exactly when it asks for an allowed destination, there is a relay
      for it, and the relay was told: under the id drawn for it, which was never used. */
  lemma WaitsExactly(s: State, e: Event, sock: nat, cid: nat)
    requires Inv(s) && cid !in s.pending
    ensures cid in Next(s, e).pending && Next(s, e).pending[cid] == sock
            <==> e.Begin? && e.sock == sock && e.cid == cid && sock !in s.began && cid !in s.used
                 && !e.blocked && e.route.Some? && e.sent
  {}

  lemma {:induction false} RepliesStay(s: State, es: seq<Event>)
    ensures s.replies <= Run(s, es).replies && s.began <= Run(s, es).began
    decreases |es|
  {
    if es != [] { RepliesStay(Next(s, es[0]), es[1..]); }
  }

  /** A CONNECT to a blocked destination never reaches a relay: no id is drawn for it and nothing
      waits, then or ever after, and the one reply its socket ever gets is DENIED. */
  lemma BlockedIsDenied(es: seq<Event>, sock: nat, cid: nat, route: Option<Route>, sent: bool, later: seq<Event>)
    requires sock !in Run(Initial, es).began
    ensures var s := Run(Initial, es);
            var s1 := Next(s, Begin(sock, cid, true, route, sent));
            var t := Run(s1, later);
            && s1.pending == s.pending && s1.used == s.used
            && !Waiting(t, sock) && sock !in t.abandoned
            && Reply(sock, Denied) in t.replies && forall r | r in t.replies && r.sock == sock :: r.rep == Denied
  {
    RunKeepsInv(Initial, es);
    var s := Run(Initial, es);
    StepKeepsInv(s, Begin(sock, cid, true, route, sent));
    var s1 := Next(s, Begin(sock, cid, true, route, sent));
    assert s1.replies[|s.replies|] == Reply(sock, Denied);
    RunKeepsInv(s1, later);
    RepliesStay(s1, later);
    hide Run, Next;
    OneReply(Run(s1, later), |s.replies|);
  }

  lemma OneReply(t: State, i: nat)
    requires Inv(t) && i < |t.replies|
    ensures var k := t.replies[i].sock;
            !Waiting(t, k) && k !in t.abandoned && forall r | r in t.replies && r.sock == k :: r == t.replies[i]
  {
    assert Answered(t, t.replies[i].sock);
  }

  // --- the table, in place ------------------------------------------------------------------------------

  class PendingTable {
    var pending: map<nat, nat>
    var replies: seq<Reply>
    ghost var used: set<nat>
    ghost var began: set<nat>
    ghost var taken: seq<nat>
    ghost var abandoned: set<nat>

    ghost function View(): State
      reads this
    {
      State(pending, used, began, replies, taken, abandoned)
    }

    constructor ()
      ensures View() == Initial
    {
      pending, replies, used, began, taken, abandoned := map[], [], {}, {}, [], {};
    }

    method Fail(cid: nat, rep: Rep)
      modifies this
      ensures View() == FailPending(old(View()), cid, rep)
    {
      if cid !in pending { return; }
      var sock := pending[cid];
      pending := pending - {cid};
      taken := taken + [cid];
      replies := replies + [Reply(sock, rep)];
    }

    method Open(sock: nat, cid: nat, blocked: bool, chosen: Option<nat>, attached: set<nat>, hasSource: bool, rs: Relays, sent: bool)
      requires sock !in began
      requires cid !in used        // randomBytes(16)
      modifies this
      ensures View() == Next(old(View()), Begin(sock, cid, blocked, RouteEgress(chosen, attached, hasSource, rs), sent))
    {
      began := began + {sock};
      if blocked {
        replies := replies + [Reply(sock, Denied)];
        return;
      }
      var route := RouteEgress(chosen, attached, hasSource, rs);
      if route.None? {
        replies := replies + [Reply(sock, NetUnreachable)];
        return;
      }
      used := used + {cid};
      pending := pending[cid := sock];
      if !sent { Fail(cid, NetUnreachable); }
    }

    /** The data upgrade: 401, 404, or the socket this id was waiting for. */
    method HandleUpgrade(cid: nat, authorized: bool, completes: bool) returns (status: nat)
      modifies this
      ensures View() == Next(old(View()), Upgrade(cid, authorized, completes))
      ensures status == if !authorized then 401 else if cid !in old(pending) then 404 else 101
    {
      if !authorized { return 401; }
      if cid !in pending { return 404; }
      var sock := pending[cid];
      pending := pending - {cid};
      taken := taken + [cid];
      if completes { replies := replies + [Reply(sock, Granted)]; } else { abandoned := abandoned + {sock}; }
      return 101;
    }
  }
}
