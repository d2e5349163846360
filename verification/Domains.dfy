/** Custom domains (relay/domains.js): the record's status machine, the store of records, and
    the three views routing, issuance and the TLS gate take of it. A DNS check is awaited
    while records come and go, so a verdict is applied to a record object, not to a name. */
module Domains {
  import opened Common

  const DEMOTE_STRIKES := 5
  const FAIL_STRIKES := 24
  const PER_DEPLOYMENT := 10

  datatype Status = PendingDns | Verified | Active | Failed

  predicate Live(s: Status) { s.Verified? || s.Active? }

  /** What a check found; an unreachable resolver decides nothing. */
  datatype Verdict = Indeterminate | Good | Bad

  /** One record. `history` holds its definite verdicts so far, true for a good one. */
  datatype Rec = Rec(host: string, dep: nat, status: Status, verifiedAt: Option<int>, strikes: nat,
                     cert: Option<bool>, history: seq<bool>)

  /** applyVerdict. */
  function ApplyVerdict(r: Rec, v: Verdict, now: int): Rec {
    match v
    case Indeterminate => r
    case Good =>
      var r1 := r.(strikes := 0, history := r.history + [true]);
      if r.status.Active? then r1
      else r1.(status := Verified, verifiedAt := if r.verifiedAt.Some? then r.verifiedAt else Some(now))
    case Bad =>
      var r1 := r.(strikes := r.strikes + 1, history := r.history + [false]);
      if Live(r.status) && r1.strikes >= DEMOTE_STRIKES then
        r1.(status := PendingDns, verifiedAt := None, cert := None)
      else if !Live(r.status) && !r.status.Failed? && r1.strikes >= FAIL_STRIKES then r1.(status := Failed)
      else r1
  }

  /** The owner asks for a check: a failed record starts over. */
  function AskAgain(r: Rec): Rec { if r.status.Failed? then r.(status := PendingDns, strikes := 0) else r }

  /** An enclave reports what issuance did. */
  function Report(r: Rec, ok: bool): Rec {
    r.(cert := Some(ok),
       status := if ok && r.status.Verified? then Active else if !ok && r.status.Active? then Verified else r.status)
  }

  function Attached(host: string, dep: nat): Rec { Rec(host, dep, PendingDns, None, 0, None, []) }

  // --- what every record keeps ------------------------------------------------------------------------

  /** The bad verdicts since the last good one. */
  function TrailingBad(h: seq<bool>): (n: nat)
    ensures n <= |h|
  {
    if h == [] || h[|h| - 1] then 0 else 1 + TrailingBad(h[..|h| - 1])
  }

  lemma TrailingAppend(h: seq<bool>, ok: bool)
    ensures TrailingBad(h + [ok]) == if ok then 0 else TrailingBad(h) + 1
  {
    assert (h + [ok])[..|h|] == h;
  }

  lemma {:induction false} TrailingMeans(h: seq<bool>)
    ensures var n := TrailingBad(h);
            (forall i | |h| - n <= i < |h| :: !h[i]) && (n < |h| ==> h[|h| - n - 1])
  {
    if h != [] && !h[|h| - 1] { TrailingMeans(h[..|h| - 1]); }
  }

  predicate RecOk(r: Rec) {
    && (r.status.Active? ==> r.verifiedAt.Some? && r.cert == Some(true))
    && (r.status.Verified? ==> r.verifiedAt.Some?)
    && r.strikes <= TrailingBad(r.history)
    && (r.status.PendingDns? ==> r.strikes < FAIL_STRIKES)
    && (Live(r.status) ==> r.strikes == TrailingBad(r.history) < DEMOTE_STRIKES && r.strikes < |r.history|)
  }

  lemma VerdictKeepsRec(r: Rec, v: Verdict, now: int)
    requires RecOk(r)
    ensures RecOk(ApplyVerdict(r, v, now))
  {
    TrailingAppend(r.history, true);
    TrailingAppend(r.history, false);
  }

  /** A live record is demoted by a bad verdict exactly when it is the fifth since the last
      good one, indeterminate checks in between not counting. */
  lemma DemotedExactly(r: Rec, v: Verdict, now: int)
    requires RecOk(r) && Live(r.status)
    ensures var t := ApplyVerdict(r, v, now);
            && (!Live(t.status) <==> v.Bad? && TrailingBad(t.history) == 5)
            && (!Live(t.status) ==> |t.history| > 5 && t.history[|t.history| - 6]
                                    && forall i | |t.history| - 5 <= i < |t.history| :: !t.history[i])
  {
    TrailingAppend(r.history, true);
    TrailingAppend(r.history, false);
    TrailingMeans(ApplyVerdict(r, v, now).history);
  }

  /** A record that is not live becomes live exactly by a good verdict; it is verified then, since
      the first good verdict of this spell. */
  lemma GoesLiveExactly(r: Rec, v: Verdict, now: int)
    requires !Live(r.status)
    ensures var t := ApplyVerdict(r, v, now);
            && (Live(t.status) <==> v.Good?)
            && (Live(t.status) ==> t.status.Verified? && t.strikes == 0
                                   && t.verifiedAt == Some(if r.verifiedAt.Some? then r.verifiedAt.value else now))
  {}

  /** A live one is left as it is by a good verdict, but for its strikes. */
  lemma GoodKeepsLive(r: Rec, now: int)
    requires RecOk(r) && Live(r.status)
    ensures var t := ApplyVerdict(r, Good, now);
            t.status == r.status && t.verifiedAt == r.verifiedAt && t.cert == r.cert && t.strikes == 0
  {}

  /** A pending record fails exactly at its 24th strike, and a failed one stays so under bad
      verdicts; an indeterminate verdict changes nothing. */
  lemma FailsExactly(r: Rec, v: Verdict, now: int)
    requires RecOk(r)
    ensures var t := ApplyVerdict(r, v, now);
            && (r.status.PendingDns? ==> (t.status.Failed? <==> v.Bad? && t.strikes == 24))
            && (r.status.PendingDns? && v.Bad? ==> t.strikes == r.strikes + 1)
            && (r.status.Failed? ==> (t.status.Failed? <==> !v.Good?))
            && (v.Indeterminate? ==> t == r)
  {}

  /** A certificate report makes a verified record active exactly if it is good, takes an active
      one back exactly if it is bad, and moves no other. */
  lemma ActivatesExactly(r: Rec, ok: bool)
    ensures var t := Report(r, ok);
            && t.cert == Some(ok)
            && (t.status.Active? <==> ok && Live(r.status))
            && (t.status.Verified? <==> !ok && Live(r.status))
            && (!Live(r.status) ==> t.status == r.status)
            && t.verifiedAt == r.verifiedAt && t.strikes == r.strikes && t.history == r.history
  {}

  /** Asking again gives a failed record another 24 strikes. */
  lemma StartsOver(r: Rec)
    requires RecOk(r)
    ensures !AskAgain(r).status.Failed? && (Live(AskAgain(r).status) <==> Live(r.status))
    ensures r.status.Failed? ==> AskAgain(r).strikes == 0 && AskAgain(r).status.PendingDns?
    ensures !r.status.Failed? ==> AskAgain(r) == r
  {}

  // --- the store ------------------------------------------------------------------------------------------

  /** Record objects by identity, and the names they are filed under. */
  datatype Store = Store(objs: map<nat, Rec>, byHost: map<string, nat>)

  datatype State = State(mem: Store, disk: Store, made: nat)

  const Initial := State(Store(map[], map[]), Store(map[], map[]), 0)

  datatype Event =
    | Attach(host: string, dep: nat, allowed: bool)   // is the name not one of ours?
    | Checked(obj: nat, verdict: Verdict, now: int)    // a check of this object comes back
    | Verify(host: string, dep: nat)
    | Reported(host: string, dep: nat, ok: bool)
    | Detach(host: string, dep: nat)
    | Purge(host: string)
    | Save
    | Restart

  predicate Filed(s: Store, host: string) { host in s.byHost && s.byHost[host] in s.objs }

  function At(s: Store, host: string): Rec
    requires Filed(s, host)
  {
    s.objs[s.byHost[host]]
  }

  /** rowsFor: the names of one deployment. */
  function Names(s: Store, dep: nat): set<string> { set h | h in s.byHost && Filed(s, h) && At(s, h).dep == dep }

  function WithRec(s: Store, obj: nat, r: Rec): Store { s.(objs := s.objs[obj := r]) }

  function Owned(s: Store, host: string, dep: nat): bool { Filed(s, host) && At(s, host).dep == dep }

  function OnAttach(s: State, host: string, dep: nat): State {
    if host in s.mem.byHost || |Names(s.mem, dep)| >= PER_DEPLOYMENT then s
    else
      var mem := Store(s.mem.objs[s.made := Attached(host, dep)], s.mem.byHost[host := s.made]);
      State(mem, mem, s.made + 1)
  }

  function Without(s: Store, host: string): Store { s.(byHost := s.byHost - {host}) }

  function Next(s: State, e: Event): State {
    match e
    case Attach(host, dep, allowed) => if allowed then OnAttach(s, host, dep) else s
    case Checked(obj, v, now) =>
      if obj in s.mem.objs then s.(mem := WithRec(s.mem, obj, ApplyVerdict(s.mem.objs[obj], v, now))) else s
    case Verify(host, dep) =>
      if Owned(s.mem, host, dep) then s.(mem := WithRec(s.mem, s.mem.byHost[host], AskAgain(At(s.mem, host)))) else s
    case Reported(host, dep, ok) =>
      if Owned(s.mem, host, dep) then s.(mem := WithRec(s.mem, s.mem.byHost[host], Report(At(s.mem, host), ok))) else s
    case Detach(host, dep) =>
      if Owned(s.mem, host, dep) then s.(mem := Without(s.mem, host), disk := Without(s.mem, host)) else s
    case Purge(host) => s.(mem := Without(s.mem, host))
    case Save => s.(disk := s.mem)
    case Restart => s.(mem := s.disk)
  }

  function Run(s: State, es: seq<Event>): State
    decreases |es|
  {
    if es == [] then s else Run(Next(s, es[0]), es[1..])
  }

  // --- the invariant ---------------------------------------------------------------------------------------

  ghost predicate StoreOk(s: Store, made: nat) {
    && (forall h | h in s.byHost :: s.byHost[h] in s.objs && s.objs[s.byHost[h]].host == h)
    && (forall o | o in s.objs :: o < made && RecOk(s.objs[o]))
    && (forall d: nat {:trigger Names(s, d)} :: |Names(s, d)| <= PER_DEPLOYMENT)
  }

  ghost predicate Inv(s: State) { StoreOk(s.mem, s.made) && StoreOk(s.disk, s.made) }

  lemma Subset(a: set<string>, b: set<string>)
    requires a <= b
    ensures |a| <= |b|
  {
    assert b == a + (b - a);
  }

  /** Changing a record but not whose it is. */
  lemma RecKeepsStore(s: Store, made: nat, obj: nat, r: Rec)
    requires StoreOk(s, made) && obj in s.objs && RecOk(r) && r.host == s.objs[obj].host && r.dep == s.objs[obj].dep
    ensures StoreOk(WithRec(s, obj, r), made)
  {
    hide RecOk;
    var t := WithRec(s, obj, r);
    forall d: nat ensures |Names(t, d)| <= PER_DEPLOYMENT {
      assert Names(t, d) == Names(s, d);
    }
  }

  lemma RemovalKeepsStore(s: Store, made: nat, host: string)
    requires StoreOk(s, made)
    ensures StoreOk(Without(s, host), made)
  {
    hide RecOk;
    var t := Without(s, host);
    forall d: nat ensures |Names(t, d)| <= PER_DEPLOYMENT { Subset(Names(t, d), Names(s, d)); }
  }

  lemma AttachKeepsStore(s: Store, made: nat, host: string, dep: nat)
    requires StoreOk(s, made) && host !in s.byHost && |Names(s, dep)| < PER_DEPLOYMENT
    ensures StoreOk(Store(s.objs[made := Attached(host, dep)], s.byHost[host := made]), made + 1)
  {
    assert RecOk(Attached(host, dep));
    hide RecOk;
    var t := Store(s.objs[made := Attached(host, dep)], s.byHost[host := made]);
    forall d: nat ensures |Names(t, d)| <= PER_DEPLOYMENT {
      NamesAfterAttach(s, made, host, dep, d);
      Subset(Names(t, d), Names(s, d) + if d == dep then {host} else {});
    }
  }

  lemma NamesAfterAttach(s: Store, made: nat, host: string, dep: nat, d: nat)
    requires made !in s.objs && host !in s.byHost && forall h | h in s.byHost :: s.byHost[h] in s.objs
    ensures Names(Store(s.objs[made := Attached(host, dep)], s.byHost[host := made]), d)
            <= Names(s, d) + if d == dep then {host} else {}
  {
    var t := Store(s.objs[made := Attached(host, dep)], s.byHost[host := made]);
    forall h | h in Names(t, d) ensures h in Names(s, d) + if d == dep then {host} else {} {
      if h != host { assert t.byHost[h] == s.byHost[h] && At(t, h) == At(s, h); }
    }
  }

  lemma StepKeepsInv(s: State, e: Event)
    requires Inv(s)
    ensures Inv(Next(s, e))
  {
    hide RecOk, ApplyVerdict, AskAgain, Report;
    match e
    case Attach(host, dep, _) =>
      if host !in s.mem.byHost && |Names(s.mem, dep)| < PER_DEPLOYMENT { AttachKeepsStore(s.mem, s.made, host, dep); }
    case Checked(obj, v, now) =>
      if obj in s.mem.objs { Changed(s.mem, s.made, obj, v, now, true); }
    case Verify(host, dep) =>
      if Owned(s.mem, host, dep) { Changed(s.mem, s.made, s.mem.byHost[host], Indeterminate, 0, true); }
    case Reported(host, dep, ok) =>
      if Owned(s.mem, host, dep) { Changed(s.mem, s.made, s.mem.byHost[host], Indeterminate, 0, ok); }
    case Detach(host, _) => RemovalKeepsStore(s.mem, s.made, host);
    case Purge(host) => RemovalKeepsStore(s.mem, s.made, host);
    case _ =>
  }

  /** Each of the three ways a record changes keeps the store. */
  lemma Changed(s: Store, made: nat, obj: nat, v: Verdict, now: int, ok: bool)
    requires StoreOk(s, made) && obj in s.objs
    ensures StoreOk(WithRec(s, obj, ApplyVerdict(s.objs[obj], v, now)), made)
    ensures StoreOk(WithRec(s, obj, AskAgain(s.objs[obj])), made)
    ensures StoreOk(WithRec(s, obj, Report(s.objs[obj], ok)), made)
  {
    var r := s.objs[obj];
    VerdictKeepsRec(r, v, now);
    assert RecOk(AskAgain(r)) && RecOk(Report(r, ok));
    RecKeepsStore(s, made, obj, ApplyVerdict(r, v, now));
    RecKeepsStore(s, made, obj, AskAgain(r));
    RecKeepsStore(s, made, obj, Report(r, ok));
  }

  lemma {:induction false} RunKeepsInv(s: State, es: seq<Event>)
    requires Inv(s)
    ensures Inv(Run(s, es))
    decreases |es|
  {
    if es != [] {
      StepKeepsInv(s, es[0]);
      RunKeepsInv(Next(s, es[0]), es[1..]);
    }
  }

  // --- the three views ------------------------------------------------------------------------------------

  /** domainMap: what the relay routes. */
  function DomainMap(s: Store): map<string, nat> {
    map h | h in s.byHost && Filed(s, h) && Live(At(s, h).status) :: At(s, h).dep
  }

  /** certNamesFor: what a deployment's enclave may hold certificates for. */
  function CertNames(s: Store, dep: nat): set<string> { set h | h in Names(s, dep) && Live(At(s, h).status) }

  function BeforeColon(s: string): string { if s == [] || s[0] == ':' then [] else [s[0]] + BeforeColon(s[1..]) }

  /** `.replace(/\.+$/, "")` */
  function StripDots(s: string): (r: string)
    ensures r <= s && (r != [] ==> r[|r| - 1] != '.')
  {
    if s != [] && s[|s| - 1] == '.' then StripDots(s[..|s| - 1]) else s
  }

  function LowerText(s: string): (r: string)
    ensures |r| == |s|
  {
    seq(|s|, i requires 0 <= i < |s| => LowerChar(s[i]))
  }

  function LookupLive(s: Store, host: string): Option<nat> {
    if Filed(s, host) && Live(At(s, host).status) then Some(At(s, host).dep) else None
  }

  /** domainDeployment: the request path's lookup. */
  function DomainDeployment(s: Store, hostname: string): Option<nat> {
    LookupLive(s, StripDots(BeforeColon(LowerText(hostname))))
  }

  /** tlsAskAllowed: may a certificate be asked for? */
  function TlsAsk(s: Store, hostname: string, reserved: string -> bool): bool {
    var h := BeforeColon(StripDots(LowerText(hostname)));
    h != "" && !reserved(h) && LookupLive(s, h).Some?
  }

  lemma {:induction false} ColonFree(s: string)
    ensures ':' !in s ==> BeforeColon(s) == s
    ensures ':' !in BeforeColon(s) && BeforeColon(s) <= s && (':' in s ==> |BeforeColon(s)| < |s| && s[|BeforeColon(s)|] == ':')
  {
    if s != [] && s[0] != ':' {
      ColonFree(s[1..]);
      assert s == [s[0]] + s[1..];
    }
  }

  /** The two spell the asked name alike exactly unless a port follows a trailing dot. */
  lemma SpellingsDifferExactly(s: string)
    ensures var first := BeforeColon(s);
            StripDots(first) != BeforeColon(StripDots(s)) <==> ':' in s && first != [] && first[|first| - 1] == '.'
  {
    ColonFree(s);
    var first, t := BeforeColon(s), StripDots(s);
    StripChanges(first);
    if ':' in s {
      StripStopsAtColon(s, |first|);
      CutTwice(s, |t|);
      assert t == s[..|t|];
    } else {
      NoColonInPrefix(s, t);
      ColonFree(t);
    }
  }

  lemma StripChanges(x: string)
    ensures StripDots(x) != x <==> x != [] && x[|x| - 1] == '.'
  {}

  lemma NoColonInPrefix(s: string, t: string)
    requires t <= s && ':' !in s
    ensures ':' !in t
  {
    forall i | 0 <= i < |t| ensures t[i] != ':' { assert t[i] == s[i] && s[i] in s; }
  }

  /** Trailing dots end at a colon. */
  lemma {:induction false} StripStopsAtColon(s: string, k: nat)
    requires k < |s| && s[k] == ':'
    ensures k < |StripDots(s)|
  {
    if s[|s| - 1] == '.' { StripStopsAtColon(s[..|s| - 1], k); }
  }

  lemma {:induction false} CutTwice(s: string, n: nat)
    requires |BeforeColon(s)| < n <= |s| && ':' in s
    ensures BeforeColon(s[..n]) == BeforeColon(s)
  {
    if s[0] != ':' {
      assert s == [s[0]] + s[1..] && s[..n][1..] == s[1..][..n - 1];
      CutTwice(s[1..], n - 1);
    }
  }

  // --- main results ---------------------------------------------------------------------------------------

  /** In every reachable state an active domain was verified and its last certificate report
      was good, a live one has seen fewer than five bad verdicts since its last good one, and
      no deployment holds more than ten names. */
  lemma EveryRecordIsSound(es: seq<Event>, host: string, dep: nat)
    ensures var s := Run(Initial, es).mem;
            && |Names(s, dep)| <= 10
            && (Filed(s, host) ==>
                  var r := At(s, host);
                  && (r.status.Active? ==> r.verifiedAt.Some? && r.cert == Some(true))
                  && (Live(r.status) ==> r.verifiedAt.Some? && r.strikes == TrailingBad(r.history) < 5
                                         && r.strikes < |r.history|
                                         && r.history[|r.history| - r.strikes - 1]))
  {
    EmptyStore();
    RunKeepsInv(Initial, es);
    var s := Run(Initial, es).mem;
    assert |Names(s, dep)| <= PER_DEPLOYMENT;
    if Filed(s, host) { TrailingMeans(At(s, host).history); }
  }

  lemma EmptyStore()
    ensures Inv(Initial)
  {
    forall d: nat ensures |Names(Store(map[], map[]), d)| <= PER_DEPLOYMENT {
      assert Names(Store(map[], map[]), d) == {};
    }
  }

  /** Over every run a live name stops being live only by the fifth bad verdict since its last
      good one, by its owner's detaching it, by the purge, or by going back to the disk. */
  lemma OnlyFiveBadVerdictsDemote(es: seq<Event>, e: Event, host: string)
    ensures var s, t := Run(Initial, es).mem, Next(Run(Initial, es), e).mem;
            LookupLive(s, host).Some? && LookupLive(t, host).None? ==>
              || (e.Checked? && e.obj == s.byHost[host] && e.verdict.Bad? && Filed(t, host)
                  && TrailingBad(At(t, host).history) == 5)
              || (e.Detach? && e.host == host && At(s, host).dep == e.dep)
              || (e.Purge? && e.host == host) || e.Restart?
  {
    EmptyStore();
    RunKeepsInv(Initial, es);
    hide Run;
    StopsLive(Run(Initial, es), e, host);
  }

  lemma StopsLive(st: State, e: Event, host: string)
    requires StoreOk(st.mem, st.made)
    ensures var s, t := st.mem, Next(st, e).mem;
            LookupLive(s, host).Some? && LookupLive(t, host).None? ==>
              || (e.Checked? && e.obj == s.byHost[host] && e.verdict.Bad? && Filed(t, host)
                  && TrailingBad(At(t, host).history) == DEMOTE_STRIKES)
              || (e.Detach? && e.host == host && At(s, host).dep == e.dep)
              || (e.Purge? && e.host == host) || e.Restart?
  {
    hide Names;
    if e.Checked? && Filed(st.mem, host) && Live(At(st.mem, host).status) { DemotedExactly(At(st.mem, host), e.verdict, e.now); }
    hide RecOk, ApplyVerdict, TrailingBad;
  }

  /** In every reachable state a free name of a deployment with room goes live: attached, found
      right by a check and reported minted, it is routed to its deployment, also over a
      restart once saved. */
  lemma AttachedGoesLive(es: seq<Event>, host: string, dep: nat, now: int)
    requires host !in Run(Initial, es).mem.byHost && |Names(Run(Initial, es).mem, dep)| < 10
    ensures var s := Run(Initial, es);
            var attached := Next(s, Attach(host, dep, true));
            var verified := Next(attached, Checked(s.made, Good, now));
            var active := Next(verified, Reported(host, dep, true));
            var saved := Next(Next(active, Save), Restart);
            && host !in DomainMap(attached.mem)
            && host in DomainMap(verified.mem) && DomainMap(verified.mem)[host] == dep
            && At(verified.mem, host).status.Verified? && At(verified.mem, host).verifiedAt == Some(now)
            && host in DomainMap(active.mem) && DomainMap(active.mem)[host] == dep && At(active.mem, host).status.Active?
            && saved.mem == active.mem
  {
    EmptyStore();
    RunKeepsInv(Initial, es);
    hide Run, RecOk;
    FreshGoesLive(Run(Initial, es), host, dep, now);
  }

  /** A name its owner detaches is routed no more, now or after a restart; nobody else's ask to
      detach it changes anything, and no other name is touched. */
  lemma DetachedIsGone(s: State, host: string, dep: nat, other: string)
    ensures var t := Next(s, Detach(host, dep));
            && (Owned(s.mem, host, dep) ==> host !in DomainMap(t.mem) && host !in DomainMap(Next(t, Restart).mem))
            && (!Owned(s.mem, host, dep) ==> t == s)
            && (other != host ==> (other in DomainMap(t.mem) <==> other in DomainMap(s.mem))
                                  && (other in DomainMap(t.mem) ==> DomainMap(t.mem)[other] == DomainMap(s.mem)[other]))
  {}

  lemma FreshGoesLive(s: State, host: string, dep: nat, now: int)
    requires host !in s.mem.byHost && |Names(s.mem, dep)| < 10
    ensures var attached := Next(s, Attach(host, dep, true));
            var verified := Next(attached, Checked(s.made, Good, now));
            var active := Next(verified, Reported(host, dep, true));
            var saved := Next(Next(active, Save), Restart);
            && host !in DomainMap(attached.mem)
            && host in DomainMap(verified.mem) && DomainMap(verified.mem)[host] == dep
            && At(verified.mem, host).status.Verified? && At(verified.mem, host).verifiedAt == Some(now)
            && host in DomainMap(active.mem) && DomainMap(active.mem)[host] == dep && At(active.mem, host).status.Active?
            && saved.mem == active.mem
  {
    var attached := Next(s, Attach(host, dep, true));
    assert At(attached.mem, host) == Attached(host, dep);
    var verified := Next(attached, Checked(s.made, Good, now));
    assert At(verified.mem, host) == Rec(host, dep, Verified, Some(now), 0, None, [true]);
    var active := Next(verified, Reported(host, dep, true));
    assert At(active.mem, host) == Rec(host, dep, Active, Some(now), 0, Some(true), [true]);
  }

  /** The routing map, the per-name lookup and the certificate lists agree on every name asked
      in its canonical spelling, and the TLS gate is that set minus the reserved names. */
  lemma ViewsAgree(s: Store, host: string, dep: nat, reserved: string -> bool)
    requires LowerText(host) == host && ':' !in host && StripDots(host) == host && host != ""
    ensures DomainDeployment(s, host) == Some(dep) <==> host in DomainMap(s) && DomainMap(s)[host] == dep
    ensures DomainDeployment(s, host) == Some(dep) <==> host in CertNames(s, dep)
    ensures TlsAsk(s, host, reserved) <==> host in DomainMap(s) && !reserved(host)
  {
    ColonFree(host);
  }

  // --- records and store, in place ------------------------------------------------------------------------

  class DomainRecord {
    const host: string
    const dep: nat
    var status: Status
    var verifiedAt: Option<int>
    var strikes: nat
    var cert: Option<bool>
    ghost var history: seq<bool>

    ghost function View(): Rec
      reads this
    {
      Rec(host, dep, status, verifiedAt, strikes, cert, history)
    }

    constructor (host: string, dep: nat)
      ensures View() == Attached(host, dep)
    {
      this.host, this.dep := host, dep;
      status, verifiedAt, strikes, cert, history := PendingDns, None, 0, None, [];
    }

    method Apply(v: Verdict, now: int) returns (changed: bool)
      modifies this
      ensures View() == ApplyVerdict(old(View()), v, now) && changed == (status != old(status))
    {
      if v.Indeterminate? { return false; }
      var was := status;
      if v.Good? {
        strikes := 0;
        history := history + [true];
        if was != Active {
          status := Verified;
          if verifiedAt.None? { verifiedAt := Some(now); }
        }
        return was != status;
      }
      strikes := strikes + 1;
      history := history + [false];
      var wasLive := status == Active || status == Verified;
      if wasLive && strikes >= DEMOTE_STRIKES {
        status, verifiedAt, cert := PendingDns, None, None;
        return true;
      }
      if !wasLive && status != Failed && strikes >= FAIL_STRIKES {
        status := Failed;
        return true;
      }
      return false;
    }

    method StartOver()
      modifies this
      ensures View() == AskAgain(old(View()))
    {
      if status == Failed { status, strikes := PendingDns, 0; }
    }

    method Issued(ok: bool)
      modifies this
      ensures View() == Report(old(View()), ok)
    {
      cert := Some(ok);
      if ok && status == Verified { status := Active; }
      if !ok && status == Active { status := Verified; }
    }
  }

  class DomainStore {
    var byHost: map<string, DomainRecord>

    ghost predicate Valid()
      reads this, byHost.Values
    {
      forall h | h in byHost :: byHost[h].host == h
    }

    ghost function NamesOf(dep: nat): set<string>
      reads this, byHost.Values
    {
      set h | h in byHost && byHost[h].dep == dep
    }

    constructor ()
      ensures Valid() && byHost == map[]
    {
      byHost := map[];
    }

    method CountRows(dep: nat) returns (n: nat)
      ensures n == |NamesOf(dep)|
    {
      n := 0;
      var left := byHost.Keys;
      ghost var done: set<string> := {};
      while left != {}
        invariant left <= byHost.Keys && done == (set h | h in NamesOf(dep) && h !in left) && n == |done|
      {
        var h :| h in left;
        left := left - {h};
        if byHost[h].dep == dep {
          done := done + {h};
          n := n + 1;
        }
      }
      assert done == NamesOf(dep);
    }

    /** The attach route past its checks of name and owner. */
    method Attach(host: string, dep: nat) returns (r: Option<DomainRecord>)
      requires Valid()
      modifies this
      ensures Valid()
      ensures r.Some? <==> host !in old(byHost) && |old(NamesOf(dep))| < PER_DEPLOYMENT
      ensures r.Some? ==> fresh(r.value) && r.value.View() == Attached(host, dep) && byHost == old(byHost)[host := r.value]
      ensures r.None? ==> byHost == old(byHost)
    {
      if host in byHost { return None; }
      var mine := CountRows(dep);
      if mine >= PER_DEPLOYMENT { return None; }
      var rec := new DomainRecord(host, dep);
      byHost := byHost[host := rec];
      return Some(rec);
    }

    method Detach(host: string, dep: nat) returns (ok: bool)
      requires Valid()
      modifies this
      ensures Valid() && (ok <==> host in old(byHost) && old(byHost)[host].dep == dep)
      ensures byHost == if ok then old(byHost) - {host} else old(byHost)
    {
      if host !in byHost || byHost[host].dep != dep { return false; }
      byHost := byHost - {host};
      return true;
    }

    /** The routing map, built anew. */
    method RoutingMap() returns (out: map<string, nat>)
      requires Valid()
      ensures out == map h | h in byHost && Live(byHost[h].status) :: byHost[h].dep
    {
      out := map[];
      var left := byHost.Keys;
      while left != {}
        invariant left <= byHost.Keys
        invariant out == map h | h in byHost && h !in left && Live(byHost[h].status) :: byHost[h].dep
      {
        var h :| h in left;
        left := left - {h};
        var r := byHost[h];
        if r.status == Verified || r.status == Active { out := out[r.host := r.dep]; }
      }
    }
  }
}
