/** The certificate store and the running issuances (relay/certs.js, handleCerts): a second
    ask joins the running one, and a fresh certificate replaces every other of its name. */
module CertCache {
  import opened Common

  datatype Key = Key(name: nat, spki: nat)

  datatype Cert = Cert(key: Key, notBefore: int, notAfter: int)

  /** One issuance promise: is it running, and has its `finally` run? */
  datatype Issuance = Issuance(key: Key, running: bool, cleared: bool)

  datatype Reply = Cached(cert: Cert) | Joins(i: nat) | Starts(i: nat) | Later

  datatype State = State(certs: map<Key, Cert>, issuances: seq<Issuance>, inflight: map<Key, nat>)

  const Initial := State(map[], [], map[])

  datatype Event =
    | Ask(key: Key, now: int, admitted: bool)   // past back-off and pacing?
    | Issues(i: nat, notBefore: int, notAfter: int)
    | Throws(i: nat)
    | Finally(i: nat)
    | Sweep(now: int)
    | Restart

  /** cacheFresh: served until two thirds of the lifetime. */
  predicate Fresh(c: Cert, now: int) { 3 * (now - c.notBefore) < 2 * (c.notAfter - c.notBefore) }

  function Answer(s: State, key: Key, now: int, admitted: bool): Reply {
    if key in s.certs && Fresh(s.certs[key], now) then Cached(s.certs[key])
    else if key in s.inflight then Joins(s.inflight[key])
    else if !admitted then Later
    else Starts(|s.issuances|)
  }

  function OnAsk(s: State, key: Key, now: int, admitted: bool): State {
    if !Answer(s, key, now, admitted).Starts? then s
    else s.(issuances := s.issuances + [Issuance(key, true, false)], inflight := s.inflight[key := |s.issuances|])
  }

  /** The store with one certificate for the name: this one. */
  function Stored(certs: map<Key, Cert>, key: Key, c: Cert): map<Key, Cert> {
    (map k | k in certs && (k.name != key.name || k == key) :: certs[k])[key := c]
  }

  predicate IsRunning(s: State, i: nat) { i < |s.issuances| && s.issuances[i].running }

  function Stopped(s: State, i: nat): State
    requires i < |s.issuances|
  {
    s.(issuances := s.issuances[i := s.issuances[i].(running := false)])
  }

  function Next(s: State, e: Event): State {
    match e
    case Ask(key, now, admitted) => OnAsk(s, key, now, admitted)
    case Issues(i, nb, na) =>
      if !IsRunning(s, i) then s
      else Stopped(s, i).(certs := Stored(s.certs, s.issuances[i].key, Cert(s.issuances[i].key, nb, na)))
    case Throws(i) => if IsRunning(s, i) then Stopped(s, i) else s
    case Finally(i) =>
      if i >= |s.issuances| || s.issuances[i].running || s.issuances[i].cleared then s
      else s.(issuances := s.issuances[i := s.issuances[i].(cleared := true)], inflight := s.inflight - {s.issuances[i].key})
    case Sweep(now) => s.(certs := map k | k in s.certs && s.certs[k].notAfter >= now :: s.certs[k])
    case Restart => State(s.certs, [], map[])
  }

  function Run(s: State, es: seq<Event>): State
    decreases |es|
  {
    if es == [] then s else Run(Next(s, es[0]), es[1..])
  }

  // --- the invariant -----------------------------------------------------------------------------

  predicate OnePerName(certs: map<Key, Cert>) {
    forall k, l | k in certs && l in certs :: k.name == l.name ==> k == l
  }

  predicate Filed(certs: map<Key, Cert>) { forall k | k in certs :: certs[k].key == k }

  predicate IssuanceOk(s: State, i: nat)
    requires i < |s.issuances|
  {
    var x := s.issuances[i];
    && (x.running ==> !x.cleared)
    && (!x.cleared ==> x.key in s.inflight && s.inflight[x.key] == i)
  }

  predicate Inv(s: State) {
    && OnePerName(s.certs) && Filed(s.certs)
    && (forall i | 0 <= i < |s.issuances| :: IssuanceOk(s, i))
    && (forall k | k in s.inflight :: s.inflight[k] < |s.issuances| && s.issuances[s.inflight[k]].key == k)
  }

  lemma StepKeepsInv(s: State, e: Event)
    requires Inv(s)
    ensures Inv(Next(s, e))
  {
    CertsStay(s, e);
    hide OnePerName, Filed, Stored;
    var t := Next(s, e);
    forall i | 0 <= i < |t.issuances| ensures IssuanceOk(t, i) {
      if i < |s.issuances| {
        assert IssuanceOk(s, i);
        if e.Finally? && e.i < |s.issuances| { assert IssuanceOk(s, e.i); }
      }
    }
  }

  lemma CertsStay(s: State, e: Event)
    requires OnePerName(s.certs) && Filed(s.certs)
    ensures OnePerName(Next(s, e).certs) && Filed(Next(s, e).certs)
  {}

  lemma {:induction false} RunKeepsInv(s: State, es: seq<Event>)
    requires Inv(s)
    ensures Inv(Run(s, es))
    decreases |es|
  {
    if es != [] {
      StepKeepsInv(s, es[0]);
      RunKeepsInv(Next(s, es[0]), es[1..]);
    }
  }

  // --- main results --------------------------------------------------------------------------------

  /** At most one issuance of a key runs at a time, whatever the asks, replies and restarts. */
  lemma OneIssuancePerKey(es: seq<Event>, i: nat, j: nat)
    requires IsRunning(Run(Initial, es), i) && IsRunning(Run(Initial, es), j)
    requires Run(Initial, es).issuances[i].key == Run(Initial, es).issuances[j].key
    ensures i == j
  {
    RunKeepsInv(Initial, es);
    var s := Run(Initial, es);
    assert IssuanceOk(s, i) && IssuanceOk(s, j);
  }

  /** The store holds at most one certificate per name, and whatever an ask is handed from it
      or joins is for the very name and key it asked about. */
  lemma OneCertificatePerName(es: seq<Event>, key: Key, now: int, admitted: bool)
    ensures var s := Run(Initial, es);
            && OnePerName(s.certs)
            && match Answer(s, key, now, admitted)
               case Cached(c) => c.key == key && Fresh(c, now)
               case Joins(i) => i < |s.issuances| && s.issuances[i].key == key
               case _ => forall i | 0 <= i < |s.issuances| && s.issuances[i].running :: s.issuances[i].key != key
  {
    RunKeepsInv(Initial, es);
    var s := Run(Initial, es);
    forall i | 0 <= i < |s.issuances| && s.issuances[i].running ensures s.issuances[i].key in s.inflight {
      assert IssuanceOk(s, i);
    }
  }

  /** An ask is served from the store exactly while less than two thirds of its certificate's
      lifetime are over. */
  lemma ServedExactly(s: State, key: Key, now: int, admitted: bool)
    ensures Answer(s, key, now, admitted).Cached?
            <==> key in s.certs && 3 * now < s.certs[key].notBefore + 2 * s.certs[key].notAfter
    ensures Answer(s, key, now, admitted).Cached? ==> Answer(s, key, now, admitted).cert == s.certs[key]
  {}

  /** Only certificates past their end are swept, and a restart forgets what runs, not what was
      issued. */
  lemma SweptExactly(s: State, now: int, key: Key)
    ensures key in Next(s, Sweep(now)).certs <==> key in s.certs && s.certs[key].notAfter >= now
    ensures key in Next(s, Sweep(now)).certs ==> Next(s, Sweep(now)).certs[key] == s.certs[key]
    ensures Next(s, Restart).certs == s.certs && key !in Next(s, Restart).inflight
  {}

  /** An ask that starts an issuance: asks that come meanwhile and are not served join it; when
      it succeeds its certificate is served, the name's others are gone, all other names keep
      theirs, and the key is free again. */
  lemma IssuanceRunsThrough(s: State, key: Key, now: int, nb: int, na: int, later: int, admitted: bool)
    requires Inv(s) && Answer(s, key, now, true).Starts?
    ensures var i, asked := |s.issuances|, Next(s, Ask(key, now, true));
            var issued := Next(asked, Issues(i, nb, na));
            var done := Next(issued, Finally(i));
            && (now <= later ==> Answer(asked, key, later, admitted) == Joins(i))
            && issued.certs == done.certs && key in done.certs && done.certs[key] == Cert(key, nb, na)
            && (forall k: Key :: k in done.certs <==> k == key || (k in s.certs && k.name != key.name))
            && (forall k | k in done.certs && k != key :: done.certs[k] == s.certs[k])
            && (3 * later < nb + 2 * na ==> Answer(done, key, later, admitted) == Cached(Cert(key, nb, na)))
            && (3 * later >= nb + 2 * na ==> Answer(done, key, later, true).Starts?)
  {}

  /** And when it fails nothing is served for it, the store is as it was, and the next ask that
      is let through starts another. */
  lemma FailedIssuanceStartsAgain(s: State, key: Key, now: int, later: int)
    requires Inv(s) && Answer(s, key, now, true).Starts? && now <= later
    ensures var i, asked := |s.issuances|, Next(s, Ask(key, now, true));
            var done := Next(Next(asked, Throws(i)), Finally(i));
            && done.certs == s.certs && Answer(done, key, later, false) == Later && Answer(done, key, later, true) == Starts(i + 1)
  {}

  // --- the store, in place ------------------------------------------------------------------------

  class CertStore {
    var certs: map<Key, Cert>
    var issuances: seq<Issuance>
    var inflight: map<Key, nat>

    ghost function View(): State
      reads this
    {
      State(certs, issuances, inflight)
    }

    constructor ()
      ensures View() == Initial
    {
      certs, issuances, inflight := map[], [], map[];
    }

    /** handleCerts from the cache on, up to the reply or the join. */
    method HandleAsk(key: Key, now: int, admitted: bool) returns (r: Reply)
      modifies this
      ensures r == Answer(old(View()), key, now, admitted)
      ensures View() == Next(old(View()), Ask(key, now, admitted))
    {
      if key in certs && Fresh(certs[key], now) { return Cached(certs[key]); }
      if key in inflight { return Joins(inflight[key]); }
      if !admitted { return Later; }
      r := Starts(|issuances|);
      inflight := inflight[key := |issuances|];
      issuances := issuances + [Issuance(key, true, false)];
    }

    method Fail(i: nat)
      requires i < |issuances| && issuances[i].running
      modifies this
      ensures View() == Next(old(View()), Throws(i))
    {
      issuances := issuances[i := issuances[i].(running := false)];
    }

    /** `.finally(() => inflight.delete(key))` */
    method Settle(i: nat)
      requires i < |issuances| && !issuances[i].running && !issuances[i].cleared
      modifies this
      ensures View() == Next(old(View()), Finally(i))
    {
      inflight := inflight - {issuances[i].key};
      issuances := issuances[i := issuances[i].(cleared := true)];
    }

    /** The success path of the issuance's own promise. */
    method Record(i: nat, notBefore: int, notAfter: int)
      requires i < |issuances| && issuances[i].running
      modifies this
      ensures View() == Next(old(View()), Issues(i, notBefore, notAfter))
    {
      var key := issuances[i].key;
      var c := Cert(key, notBefore, notAfter);
      var was, left := certs, certs.Keys;
      while left != {}
        invariant left <= was.Keys
        invariant forall k :: k in certs <==> k in was && (k in left || k.name != key.name || k == key)
        invariant forall k | k in certs :: certs[k] == was[k]
        invariant issuances == old(issuances) && inflight == old(inflight)
      {
        var k :| k in left;
        left := left - {k};
        if k.name == key.name && k != key { certs := certs - {k}; }
      }
      certs := certs[key := c];
      issuances := issuances[i := issuances[i].(running := false)];
      assert certs == Stored(was, key, c);
    }
  }
}
