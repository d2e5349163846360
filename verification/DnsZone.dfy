/** The four zones of relay/dns-relay.js and the whole path from a query to its reply. */
module DnsZone {
  import opened Common
  import opened DnsWire
  import opened DnsMessage
  import opened TxtChallenges

  const A := 1
  const NS := 2
  const SOA := 6
  const TXT := 16
  const AAAA := 28
  const SRV := 33
  const ANY := 255

  const NEG_TTL := 60
  const RELAY_TTL := 60

  function Text(s: string): (b: Bytes)
    ensures |b| == |s|
  {
    seq(|s|, i requires 0 <= i < |s| => if s[i] as int < 256 then s[i] as int else 63)
  }

  /** A zone or server name fit to be written: labels of at most 63 bytes, 253 in all. */
  predicate Hostname(n: Bytes) { |n| <= 253 && AllLabels(Split(n)) }

  datatype Family = Family(a: Option<Bytes>, aaaa: Option<Bytes>)

  predicate FamilyOk(f: Family) { (f.a.Some? ==> |f.a.value| == 4) && (f.aaaa.Some? ==> |f.aaaa.value| == 16) }

  /** The operator's settings. */
  datatype Config = Config(ip: Bytes, app: Bytes, tcp: Option<Bytes>, box: Option<Bytes>, ns: Bytes, rname: Bytes,
                           serial: nat, appIps: Family, tcpIps: Family, boxIps: Family)

  predicate ConfigOk(c: Config) {
    && Hostname(c.ip) && Hostname(c.app) && (c.tcp.Some? ==> Hostname(c.tcp.value))
    && (c.box.Some? ==> Hostname(c.box.value)) && Hostname(c.ns) && Hostname(c.rname) && c.serial < 0x1_0000_0000
    && FamilyOk(c.appIps) && FamilyOk(c.tcpIps) && FamilyOk(c.boxIps)
  }

  /** A deployment of the fleet: its id in hex, its parsed address, its TCP ports. */
  datatype Dep = Dep(hex: Bytes, address: Option<Bytes>, tcp: seq<nat>)

  /** What the polls and the pushes left behind. */
  datatype Zone = Zone(deployments: seq<Dep>, appRelays: map<Bytes, Family>, txt: map<Bytes, seq<Entry>>)

  predicate DepOk(d: Dep) {
    (d.address.Some? ==> |d.address.value| == 16) && forall i | 0 <= i < |d.tcp| :: d.tcp[i] < 65536
  }

  predicate ZoneOk(z: Zone) {
    && (forall i | 0 <= i < |z.deployments| :: DepOk(z.deployments[i]))
    && (forall l | l in z.appRelays :: FamilyOk(z.appRelays[l]))
    && (forall n | n in z.txt :: |n| <= 253 && EntriesOk(z.txt[n]))
  }

  // --- the records ------------------------------------------------------------------------------

  /** encodeName, for a name whose labels fit. */
  function EncodeName(n: Bytes): Bytes
    requires AllLabels(Split(n))
  {
    EncodeLabels(Split(n))
  }

  lemma NameSize(n: Bytes)
    requires AllLabels(Split(n))
    ensures |EncodeName(n)| <= |n| + 2
  {
    SplitSize(n);
  }

  function Rr(name: Bytes, typ: nat, ttl: nat, rdata: Bytes): RR { RR(Split(name), typ, 1, ttl, rdata) }

  function SoaRR(c: Config, zone: Bytes): RR
    requires ConfigOk(c)
  {
    Rr(zone, SOA, NEG_TTL, EncodeName(c.ns) + EncodeName(c.rname) + U32(c.serial) + U32(3600) + U32(600)
                           + U32(604800) + U32(NEG_TTL))
  }

  function NsRR(c: Config, zone: Bytes): RR
    requires ConfigOk(c)
  {
    Rr(zone, NS, 300, EncodeName(c.ns))
  }

  function SrvRR(name: Bytes, port: nat, target: Bytes): RR
    requires port < 65536 && AllLabels(Split(target))
  {
    Rr(name, SRV, 60, U16(0) + U16(0) + U16(port) + EncodeName(target))
  }

  // --- resolution -------------------------------------------------------------------------------

  function Hit(an: seq<RR>, ad: seq<RR>): Resp { Resp(0, true, an, [], ad) }

  function NoData(c: Config, zone: Bytes): Resp
    requires ConfigOk(c)
  {
    Resp(0, true, [], [SoaRR(c, zone)], [])
  }

  function NxDom(c: Config, zone: Bytes): Resp
    requires ConfigOk(c)
  {
    Resp(3, true, [], [SoaRR(c, zone)], [])
  }

  function HitOrNoData(c: Config, zone: Bytes, an: seq<RR>): Resp
    requires ConfigOk(c)
  {
    if an != [] then Hit(an, []) else NoData(c, zone)
  }

  function Empty(rcode: nat): Resp { Resp(rcode, false, [], [], []) }

  function ApexRRs(c: Config, zone: Bytes, qtype: nat): seq<RR>
    requires ConfigOk(c)
  {
    (if qtype == SOA || qtype == ANY then [SoaRR(c, zone)] else [])
    + (if qtype == NS || qtype == ANY then [NsRR(c, zone)] else [])
  }

  function Apex(c: Config, zone: Bytes, qtype: nat): Resp
    requires ConfigOk(c)
  {
    HitOrNoData(c, zone, ApexRRs(c, zone, qtype))
  }

  /** An address record of a family, when asked for and known. */
  function IfAsked(qname: Bytes, qtype: nat, typ: nat, ttl: nat, ip: Option<Bytes>): seq<RR> {
    if (qtype == typ || qtype == ANY) && ip.Some? then [Rr(qname, typ, ttl, ip.value)] else []
  }

  function Addresses(qname: Bytes, qtype: nat, ttl: nat, f: Family): seq<RR> {
    IfAsked(qname, qtype, A, ttl, f.a) + IfAsked(qname, qtype, AAAA, ttl, f.aaaa)
  }

  function TxtRRs(qname: Bytes, es: seq<Entry>): (rs: seq<RR>)
    ensures |rs| == |es| && forall i | 0 <= i < |es| :: rs[i] == Rr(qname, TXT, 30, TxtData(es[i].value))
  {
    if es == [] then [] else [Rr(qname, TXT, 30, TxtData(es[0].value))] + TxtRRs(qname, es[1..])
  }

  predicate StartsWith(s: Bytes, p: Bytes) { p <= s }

  predicate EndsWith(s: Bytes, p: Bytes) { |p| <= |s| && s[|s| - |p|..] == p }

  /** The live challenge values of a name. */
  function Challenges(z: Zone, qname: Bytes, now: int): seq<Entry> {
    if qname in z.txt then Live(z.txt[qname], now) else []
  }

  /** dns-01 answers, only under the challenge label. */
  function TxtAnswers(z: Zone, now: int, qname: Bytes, qtype: nat): seq<RR> {
    if (qtype == TXT || qtype == ANY) && StartsWith(qname, Text("_acme-challenge."))
    then TxtRRs(qname, Challenges(z, qname, now)) else []
  }

  function ResolveWildcard(c: Config, z: Zone, now: int, qname: Bytes, qtype: nat, zone: Bytes, f: Family): Resp
    requires ConfigOk(c)
  {
    if qname == zone then Apex(c, zone, qtype)
    else HitOrNoData(c, zone, Addresses(qname, qtype, 300, f) + TxtAnswers(z, now, qname, qtype))
  }

  predicate InZone(qname: Bytes, zone: Bytes) { qname == zone || EndsWith(qname, [DOT] + zone) }

  /** The part of a name before its zone. */
  function Sub(qname: Bytes, zone: Bytes): Bytes
    requires EndsWith(qname, [DOT] + zone)
  {
    qname[..|qname| - |zone| - 1]
  }

  /** zone 2: a single label may have chosen its own relay, and answers only from that one. */
  function ResolveApp(c: Config, z: Zone, now: int, qname: Bytes, qtype: nat): Resp
    requires ConfigOk(c) && InZone(qname, c.app)
  {
    if qname == c.app then Apex(c, c.app, qtype)
    else
      var sub := Sub(qname, c.app);
      if DOT in sub || sub !in z.appRelays then ResolveWildcard(c, z, now, qname, qtype, c.app, c.appIps)
      else HitOrNoData(c, c.app, Addresses(qname, qtype, RELAY_TTL, z.appRelays[sub]))
  }

  const MINECRAFT := "_minecraft._tcp."

  /** `/^(?:_minecraft\._tcp\.)?([^.]+)$/`: how much of the front is the service prefix. */
  function ServicePrefix(sub: Bytes): (r: Option<nat>)
    ensures r.Some? ==> r.value <= |sub| && (r.value == 0 || r.value == |MINECRAFT|)
  {
    if |sub| > |MINECRAFT| && StartsWith(sub, Text(MINECRAFT)) && DOT !in sub[|MINECRAFT|..] then Some(|MINECRAFT|)
    else if sub != [] && DOT !in sub then Some(0)
    else None
  }

  predicate HexDigit(b: byte) { 48 <= b <= 57 || 97 <= b <= 102 }

  predicate IsHexPrefix(s: Bytes) { 8 <= |s| <= 64 && forall i | 0 <= i < |s| :: HexDigit(s[i]) }

  function StripDep(s: Bytes): Bytes {
    if StartsWith(s, Text("dep-")) || StartsWith(s, Text("dep_")) then s[4..] else s
  }

  /** The deployments whose id starts so. */
  function Matching(ds: seq<Dep>, hex: Bytes): seq<Dep> {
    if ds == [] then [] else (if hex <= ds[0].hex then [ds[0]] else []) + Matching(ds[1..], hex)
  }

  lemma {:induction false} MatchingExactly(ds: seq<Dep>, hex: Bytes, d: Dep)
    ensures d in Matching(ds, hex) <==> d in ds && hex <= d.hex
  {
    if ds != [] {
      assert ds == [ds[0]] + ds[1..];
      MatchingExactly(ds[1..], hex, d);
    }
  }

  /** zone 1: `[_minecraft._tcp.]<id prefix>` of exactly one deployment. */
  function ResolveIp(c: Config, z: Zone, qname: Bytes, qtype: nat): Resp
    requires ConfigOk(c) && ZoneOk(z) && InZone(qname, c.ip) && AllLabels(Split(qname))
  {
    if qname == c.ip then Apex(c, c.ip, qtype)
    else match ServicePrefix(Sub(qname, c.ip))
      case None => NxDom(c, c.ip)
      case Some(k) => ResolveId(c, z, qname, qtype, k)
  }

  function ResolveId(c: Config, z: Zone, qname: Bytes, qtype: nat, k: nat): Resp
    requires ConfigOk(c) && ZoneOk(z) && AllLabels(Split(qname))
    requires EndsWith(qname, [DOT] + c.ip) && ServicePrefix(Sub(qname, c.ip)) == Some(k)
  {
    var lab := Sub(qname, c.ip)[k..];
    var hits := Matching(z.deployments, StripDep(lab));
    if !IsHexPrefix(StripDep(lab)) || |hits| != 1 then NxDom(c, c.ip)
    else
      MatchIsDeployment(z, StripDep(lab));
      if k > 0 then
        TargetEncodes(qname, c.ip, k);
        ResolveService(c, qname, qtype, lab + [DOT] + c.ip, hits[0])
      else ResolveAddress(c, qname, qtype, hits[0])
  }

  function ResolveService(c: Config, qname: Bytes, qtype: nat, target: Bytes, d: Dep): Resp
    requires ConfigOk(c) && DepOk(d) && AllLabels(Split(target))
  {
    if (qtype != SRV && qtype != ANY) || d.tcp == [] then NoData(c, c.ip)
    else Hit([SrvRR(qname, d.tcp[0], target)],
             if d.address.Some? then [Rr(target, AAAA, 60, d.address.value)] else [])
  }

  function ResolveAddress(c: Config, qname: Bytes, qtype: nat, d: Dep): Resp
    requires ConfigOk(c)
  {
    if (qtype == AAAA || qtype == ANY) && d.address.Some? then Hit([Rr(qname, AAAA, 60, d.address.value)], [])
    else NoData(c, c.ip)
  }

  lemma MatchIsDeployment(z: Zone, hex: Bytes)
    requires ZoneOk(z) && |Matching(z.deployments, hex)| == 1
    ensures DepOk(Matching(z.deployments, hex)[0])
  {
    var d := Matching(z.deployments, hex)[0];
    MatchingExactly(z.deployments, hex, d);
    var i :| 0 <= i < |z.deployments| && z.deployments[i] == d;
  }

  /** The SRV target is the tail of the question's own name, so it encodes too. */
  lemma TargetEncodes(qname: Bytes, zone: Bytes, k: nat)
    requires EndsWith(qname, [DOT] + zone) && AllLabels(Split(qname))
    requires ServicePrefix(Sub(qname, zone)) == Some(k) && k > 0
    ensures AllLabels(Split(Sub(qname, zone)[k..] + [DOT] + zone))
    ensures |Sub(qname, zone)[k..] + [DOT] + zone| <= |qname|
  {
    hide Split;
    var sub := Sub(qname, zone);
    var target := sub[k..] + [DOT] + zone;
    assert qname == sub + ([DOT] + zone);
    assert sub[k - 1] == Text(MINECRAFT)[k - 1] == DOT;
    assert qname == sub[..k - 1] + [DOT] + target;
    SplitAtDot(sub[..k - 1], target);
    TailLabels(Split(sub[..k - 1]), Split(target));
  }

  lemma TailLabels(head: seq<Bytes>, tail: seq<Bytes>)
    requires AllLabels(head + tail)
    ensures AllLabels(tail)
  {
    assert forall i | 0 <= i < |tail| :: tail[i] == (head + tail)[|head| + i];
  }

  function Answer(c: Config, z: Zone, now: int, q: Query): Resp
    requires ConfigOk(c) && ZoneOk(z) && AllLabels(Split(q.qname))
  {
    if q.opcode != 0 then Empty(4)
    else if q.qclass != 1 && q.qclass != ANY then Empty(5)
    else if InZone(q.qname, c.ip) then ResolveIp(c, z, q.qname, q.qtype)
    else if InZone(q.qname, c.app) then ResolveApp(c, z, now, q.qname, q.qtype)
    else if c.tcp.Some? && InZone(q.qname, c.tcp.value) then
      ResolveWildcard(c, z, now, q.qname, q.qtype, c.tcp.value, c.tcpIps)
    else if c.box.Some? && InZone(q.qname, c.box.value) then
      ResolveWildcard(c, z, now, q.qname, q.qtype, c.box.value, c.boxIps)
    else Empty(5)
  }

  // --- sizes ------------------------------------------------------------------------------------

  /** A record that can be written, in at most `n` bytes. */
  predicate Small(r: RR, n: nat) { Sound(r) && |EncodeRR(r)| <= n }

  predicate AllSmall(rs: seq<RR>, n: nat) { forall i | 0 <= i < |rs| :: Small(rs[i], n) }

  lemma {:induction false} SmallSum(rs: seq<RR>, n: nat)
    requires AllSmall(rs, n)
    ensures AllSound(rs) && |EncodeRRs(rs)| <= |rs| * n
  {
    hide EncodeRR, Sound;
    if rs != [] {
      SmallSum(rs[1..], n);
      assert Small(rs[0], n);
    }
  }

  lemma RrSmall(name: Bytes, typ: nat, ttl: nat, rdata: Bytes)
    requires AllLabels(Split(name)) && typ < 65536 && ttl < 0x1_0000_0000 && |rdata| < 65536
    ensures Small(Rr(name, typ, ttl, rdata), |name| + 12 + |rdata|)
  {
    SplitSize(name);
    hide EncodeLabels, Split;
  }

  lemma SoaSmall(c: Config, zone: Bytes)
    requires ConfigOk(c) && Hostname(zone)
    ensures Small(SoaRR(c, zone), 4123) && Small(NsRR(c, zone), 4123)
  {
    hide Split, U32, EncodeName;
    NameSize(c.ns);
    NameSize(c.rname);
    RrSmall(zone, SOA, NEG_TTL, SoaRR(c, zone).rdata);
    RrSmall(zone, NS, 300, EncodeName(c.ns));
  }

  /** Within the parser's bound on names: few records, each of bounded size, and challenge
      records only for the short names the push API takes. */
  predicate Bounded(r: Resp) {
    exists k: nat ::
      && k <= |r.an| && k <= 2 && |r.an| - k <= MAX_TXT_VALUES && |r.au| <= 1 && |r.ad| <= 1
      && AllSmall(r.an[..k], 8210) && AllSmall(r.an[k..], 3350) && AllSmall(r.au, 4123) && AllSmall(r.ad, 4123)
  }

  lemma NegativeBounded(c: Config, zone: Bytes)
    requires ConfigOk(c) && Hostname(zone)
    ensures Bounded(NoData(c, zone)) && Bounded(NxDom(c, zone))
  {
    SoaSmall(c, zone);
    hide Small, SoaRR;
    assert AllSmall([SoaRR(c, zone)], 4123);
    var r, s := NoData(c, zone), NxDom(c, zone);
    assert r.an[..0] == [] && r.an[0..] == [] && s.an[..0] == [] && s.an[0..] == [];
  }

  lemma HitBounded(fixed: seq<RR>, txts: seq<RR>, ad: seq<RR>)
    requires |fixed| <= 2 && |txts| <= MAX_TXT_VALUES && |ad| <= 1
    requires AllSmall(fixed, 8210) && AllSmall(txts, 3350) && AllSmall(ad, 4123)
    ensures Bounded(Hit(fixed + txts, ad))
  {
    var r := Hit(fixed + txts, ad);
    assert r.an[..|fixed|] == fixed && r.an[|fixed|..] == txts;
  }

  lemma AnswersBounded(c: Config, zone: Bytes, fixed: seq<RR>, txts: seq<RR>)
    requires ConfigOk(c) && Hostname(zone)
    requires |fixed| <= 2 && |txts| <= MAX_TXT_VALUES && AllSmall(fixed, 8210) && AllSmall(txts, 3350)
    ensures Bounded(HitOrNoData(c, zone, fixed + txts))
  {
    NegativeBounded(c, zone);
    assert AllSmall([], 4123);
    hide Bounded, AllSmall, NoData, ConfigOk, Hostname;
    HitBounded(fixed, txts, []);
  }

  lemma ApexRRsSmall(c: Config, zone: Bytes, qtype: nat)
    requires ConfigOk(c) && Hostname(zone)
    ensures |ApexRRs(c, zone, qtype)| <= 2 && AllSmall(ApexRRs(c, zone, qtype), 8210)
  {
    SoaSmall(c, zone);
    hide SoaRR, NsRR, EncodeRR, Sound, ConfigOk, Hostname;
    var soa, ns := SoaRR(c, zone), NsRR(c, zone);
    assert Small(soa, 8210) && Small(ns, 8210);
    TwoSmall(if qtype == SOA || qtype == ANY then [soa] else [], if qtype == NS || qtype == ANY then [ns] else [], 8210);
  }

  lemma TwoSmall(a: seq<RR>, b: seq<RR>, n: nat)
    requires |a| <= 1 && |b| <= 1 && AllSmall(a, n) && AllSmall(b, n)
    ensures |a + b| <= 2 && AllSmall(a + b, n)
  {
    hide Small;
  }

  lemma ApexBounded(c: Config, zone: Bytes, qtype: nat)
    requires ConfigOk(c) && Hostname(zone)
    ensures Bounded(Apex(c, zone, qtype))
  {
    hide Bounded, HitOrNoData, ConfigOk, Hostname, ApexRRs, AllSmall;
    var an := ApexRRs(c, zone, qtype);
    ApexRRsSmall(c, zone, qtype);
    NoneSmall();
    AnswersBounded(c, zone, an, []);
    assert an + [] == an;
  }

  lemma NoneSmall()
    ensures AllSmall([], 3350)
  {}

  lemma AddressesSmall(qname: Bytes, qtype: nat, ttl: nat, f: Family)
    requires AllLabels(Split(qname)) && |qname| <= 4095 && FamilyOk(f) && ttl < 65536
    ensures |Addresses(qname, qtype, ttl, f)| <= 2 && AllSmall(Addresses(qname, qtype, ttl, f), 8210)
  {
    if f.a.Some? { RrSmall(qname, A, ttl, f.a.value); }
    if f.aaaa.Some? { RrSmall(qname, AAAA, ttl, f.aaaa.value); }
    hide EncodeRR, Sound, Rr;
    TwoSmall(IfAsked(qname, qtype, A, ttl, f.a), IfAsked(qname, qtype, AAAA, ttl, f.aaaa), 8210);
  }

  lemma TxtSmall(qname: Bytes, es: seq<Entry>)
    requires AllLabels(Split(qname)) && |qname| <= 253 && Sized(es)
    ensures AllSmall(TxtRRs(qname, es), 3350)
  {
    forall i | 0 <= i < |es| ensures Small(TxtRRs(qname, es)[i], 3350) {
      assert es[i] in es;
      TxtReads(es[i].value);
      RrSmall(qname, TXT, 30, TxtData(es[i].value));
    }
  }

  lemma ChallengesSmall(z: Zone, qname: Bytes, now: int)
    requires ZoneOk(z) && AllLabels(Split(qname))
    ensures |Challenges(z, qname, now)| <= MAX_TXT_VALUES && AllSmall(TxtRRs(qname, Challenges(z, qname, now)), 3350)
  {
    if qname in z.txt {
      LiveEntriesOk(z.txt[qname], now);
      if Live(z.txt[qname], now) != [] { TxtSmall(qname, Challenges(z, qname, now)); }
    }
  }

  lemma TxtAnswersSmall(z: Zone, now: int, qname: Bytes, qtype: nat)
    requires ZoneOk(z) && AllLabels(Split(qname))
    ensures |TxtAnswers(z, now, qname, qtype)| <= MAX_TXT_VALUES && AllSmall(TxtAnswers(z, now, qname, qtype), 3350)
  {
    ChallengesSmall(z, qname, now);
    hide ZoneOk, Small, TxtRRs, Challenges, Text, Split;
  }

  lemma WildcardBounded(c: Config, z: Zone, now: int, qname: Bytes, qtype: nat, zone: Bytes, f: Family)
    requires ConfigOk(c) && ZoneOk(z) && Hostname(zone) && FamilyOk(f)
    requires AllLabels(Split(qname)) && |qname| <= 4095
    ensures Bounded(ResolveWildcard(c, z, now, qname, qtype, zone, f))
  {
    hide Apex, HitOrNoData, Addresses, TxtAnswers, AllSmall, ZoneOk, ConfigOk, Bounded, Split, AllLabels, Hostname, FamilyOk;
    ApexBounded(c, zone, qtype);
    AddressesSmall(qname, qtype, 300, f);
    TxtAnswersSmall(z, now, qname, qtype);
    AnswersBounded(c, zone, Addresses(qname, qtype, 300, f), TxtAnswers(z, now, qname, qtype));
  }

  lemma AppFacts(c: Config, z: Zone, qname: Bytes)
    requires ConfigOk(c) && ZoneOk(z) && InZone(qname, c.app)
    ensures Hostname(c.app) && FamilyOk(c.appIps)
    ensures qname != c.app ==> EndsWith(qname, [DOT] + c.app)
    ensures qname != c.app && Sub(qname, c.app) in z.appRelays ==> FamilyOk(z.appRelays[Sub(qname, c.app)])
  {
    hide Hostname, FamilyOk, EndsWith, Sub;
  }

  lemma AppBounded(c: Config, z: Zone, now: int, qname: Bytes, qtype: nat)
    requires ConfigOk(c) && ZoneOk(z) && InZone(qname, c.app) && AllLabels(Split(qname)) && |qname| <= 4095
    ensures Bounded(ResolveApp(c, z, now, qname, qtype))
  {
    AppFacts(c, z, qname);
    hide Apex, HitOrNoData, Addresses, ResolveWildcard, AllSmall, ZoneOk, ConfigOk, Bounded, Split, AllLabels, Hostname, FamilyOk,
         Sub, EndsWith, InZone;
    ApexBounded(c, c.app, qtype);
    WildcardBounded(c, z, now, qname, qtype, c.app, c.appIps);
    if qname != c.app && Sub(qname, c.app) in z.appRelays {
      ChosenBounded(c, qname, qtype, z.appRelays[Sub(qname, c.app)]);
    }
  }

  lemma ChosenBounded(c: Config, qname: Bytes, qtype: nat, f: Family)
    requires ConfigOk(c) && FamilyOk(f) && AllLabels(Split(qname)) && |qname| <= 4095
    ensures Bounded(HitOrNoData(c, c.app, Addresses(qname, qtype, RELAY_TTL, f)))
  {
    hide HitOrNoData, Addresses, Small, Bounded, Split, AllLabels, FamilyOk;
    var an := Addresses(qname, qtype, RELAY_TTL, f);
    AddressesSmall(qname, qtype, RELAY_TTL, f);
    assert an + [] == an;
    AnswersBounded(c, c.app, an, []);
  }

  lemma SrvBounded(qname: Bytes, target: Bytes, port: nat, address: Option<Bytes>)
    requires AllLabels(Split(qname)) && AllLabels(Split(target)) && |target| <= |qname| <= 4095 && port < 65536
    requires address.Some? ==> |address.value| == 16
    ensures Bounded(Hit([SrvRR(qname, port, target)], if address.Some? then [Rr(target, AAAA, 60, address.value)] else []))
    ensures address.Some? ==> Bounded(Hit([Rr(qname, AAAA, 60, address.value)], []))
  {
    NameSize(target);
    RrSmall(qname, SRV, 60, SrvRR(qname, port, target).rdata);
    if address.Some? {
      RrSmall(target, AAAA, 60, address.value);
      RrSmall(qname, AAAA, 60, address.value);
    }
    hide SrvRR, Rr, EncodeRR, Sound, Bounded;
    var srv := SrvRR(qname, port, target);
    assert [srv] + [] == [srv];
    HitBounded([srv], [], if address.Some? then [Rr(target, AAAA, 60, address.value)] else []);
    if address.Some? {
      var aaaa := Rr(qname, AAAA, 60, address.value);
      assert [aaaa] + [] == [aaaa];
      HitBounded([aaaa], [], []);
    }
  }

  lemma DeploymentBounded(c: Config, qname: Bytes, qtype: nat, target: Bytes, d: Dep)
    requires ConfigOk(c) && DepOk(d) && AllLabels(Split(qname)) && AllLabels(Split(target))
    requires |target| <= |qname| <= 4095
    ensures Bounded(ResolveService(c, qname, qtype, target, d)) && Bounded(ResolveAddress(c, qname, qtype, d))
  {
    NegativeBounded(c, c.ip);
    hide ConfigOk, NoData, SrvRR, Rr, Bounded, AllLabels, Split;
    SrvBounded(qname, target, if d.tcp == [] then 0 else d.tcp[0], d.address);
  }

  lemma IdBounded(c: Config, z: Zone, qname: Bytes, qtype: nat, k: nat)
    requires ConfigOk(c) && ZoneOk(z) && AllLabels(Split(qname)) && |qname| <= 4095 && Hostname(c.ip)
    requires EndsWith(qname, [DOT] + c.ip) && ServicePrefix(Sub(qname, c.ip)) == Some(k)
    ensures Bounded(ResolveId(c, z, qname, qtype, k))
  {
    hide NoData, NxDom, ResolveService, ResolveAddress, DepOk, ConfigOk, ZoneOk, IsHexPrefix, StripDep, Bounded, Split,
         AllLabels, ServicePrefix, Matching, Sub, EndsWith, Hostname;
    var lab := Sub(qname, c.ip)[k..];
    var hits := Matching(z.deployments, StripDep(lab));
    NegativeBounded(c, c.ip);
    if IsHexPrefix(StripDep(lab)) && |hits| == 1 {
      MatchIsDeployment(z, StripDep(lab));
      if k > 0 {
        TargetEncodes(qname, c.ip, k);
        DeploymentBounded(c, qname, qtype, lab + [DOT] + c.ip, hits[0]);
      } else {
        DeploymentBounded(c, qname, qtype, qname, hits[0]);
      }
    }
  }

  lemma IpBounded(c: Config, z: Zone, qname: Bytes, qtype: nat)
    requires ConfigOk(c) && ZoneOk(z) && InZone(qname, c.ip) && AllLabels(Split(qname)) && |qname| <= 4095
    ensures Bounded(ResolveIp(c, z, qname, qtype))
  {
    assert Hostname(c.ip);
    hide Apex, NxDom, ResolveId, ConfigOk, ZoneOk, Bounded, Split, AllLabels, ServicePrefix, Sub, EndsWith, Hostname;
    ApexBounded(c, c.ip, qtype);
    NegativeBounded(c, c.ip);
    if qname != c.ip && ServicePrefix(Sub(qname, c.ip)).Some? {
      IdBounded(c, z, qname, qtype, ServicePrefix(Sub(qname, c.ip)).value);
    }
  }

  lemma EmptyBounded(rcode: nat)
    ensures Bounded(Empty(rcode))
  {
    var r := Empty(rcode);
    assert r.an[..0] == [] && r.an[0..] == [];
  }

  lemma AnswerBounded(c: Config, z: Zone, now: int, q: Query)
    requires ConfigOk(c) && ZoneOk(z) && AllLabels(Split(q.qname)) && |q.qname| <= 4095
    ensures Bounded(Answer(c, z, now, q))
  {
    EmptyBounded(4);
    EmptyBounded(5);
    if InZone(q.qname, c.ip) { IpBounded(c, z, q.qname, q.qtype); }
    else if InZone(q.qname, c.app) { AppBounded(c, z, now, q.qname, q.qtype); }
    else {
      if c.tcp.Some? { WildcardBounded(c, z, now, q.qname, q.qtype, c.tcp.value, c.tcpIps); }
      if c.box.Some? { WildcardBounded(c, z, now, q.qname, q.qtype, c.box.value, c.boxIps); }
    }
    hide Bounded, ResolveIp, ResolveApp, ResolveWildcard, Split, InZone, ZoneOk;
  }

  lemma AnswersFit(an: seq<RR>, k: nat)
    requires k <= |an| && k <= 2 && |an| - k <= MAX_TXT_VALUES && AllSmall(an[..k], 8210) && AllSmall(an[k..], 3350)
    ensures AllSound(an) && |EncodeRRs(an)| <= 2 * 8210 + MAX_TXT_VALUES * 3350
  {
    hide AllSmall, AllSound, EncodeRRs;
    SmallSum(an[..k], 8210);
    SmallSum(an[k..], 3350);
    RRsConcat(an[..k], an[k..]);
    assert an == an[..k] + an[k..];
  }

  lemma BoundedFits(q: Query, r: Resp)
    requires Bounded(r) && q.id < 65536 && |q.questionRaw| <= 4101
    ensures SoundResp(r) && |Full(q, r)| < 65536
  {
    hide EncodeRR, AllSmall, AllSound, Six, EncodeRRs;
    var k: nat :|
      && k <= |r.an| && k <= 2 && |r.an| - k <= MAX_TXT_VALUES && |r.au| <= 1 && |r.ad| <= 1
      && AllSmall(r.an[..k], 8210) && AllSmall(r.an[k..], 3350) && AllSmall(r.au, 4123) && AllSmall(r.ad, 4123);
    AnswersFit(r.an, k);
    SmallSum(r.au, 4123);
    SmallSum(r.ad, 4123);
    OptSize();
    OptSound();
    RRsConcat(r.ad, [OPT_RR]);
  }

  lemma OptSound()
    ensures AllSound([OPT_RR])
  {}
}
