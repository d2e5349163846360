/** What the DNS server says (relay/dns-relay.js, answer and its resolvers): which records a
    name gets, stated on the zone's contents, and that the reply's bytes carry just those. */
module DnsAnswers {
  import opened Common
  import opened DnsWire
  import opened DnsMessage
  import opened TxtChallenges
  import opened DnsZone
  import opened DnsServer

  /** An ordinary question: the one kind answered at all. */
  predicate Ordinary(q: Query) { q.opcode == 0 && (q.qclass == 1 || q.qclass == ANY) }

  predicate Wants(q: Query, typ: nat) { q.qtype == typ || q.qtype == ANY }

  /** What an empty answer carries: the zone's SOA, for negative caching. */
  predicate SaysNone(r: Resp, zone: Bytes, rcode: nat) {
    r.rcode == rcode && r.aa && r.an == [] && r.ad == [] && |r.au| == 1 && r.au[0].owner == Split(zone) && r.au[0].typ == 6
  }

  predicate Says(r: Resp, an: seq<RR>, ad: seq<RR>) { r == Resp(0, true, an, [], ad) }

  // --- zone 1: a deployment's own address ----------------------------------------------------------

  /** The name spells this label of the zone, plainly or behind the service prefix. */
  predicate Spells(qname: Bytes, zone: Bytes, service: bool, lab: Bytes) {
    DOT !in lab && lab != [] && qname == (if service then Text("_minecraft._tcp.") else []) + lab + [DOT] + zone
  }

  /** Exactly this deployment's id starts so. */
  predicate Only(ds: seq<Dep>, hex: Bytes, i: nat) {
    i < |ds| && hex <= ds[i].hex && forall j | 0 <= j < |ds| && j != i :: !(hex <= ds[j].hex)
  }

  lemma {:induction false} OnlyMatches(ds: seq<Dep>, hex: Bytes, i: nat)
    requires Only(ds, hex, i)
    ensures Matching(ds, hex) == [ds[i]]
  {
    var rest := ds[1..];
    assert forall j | 0 <= j < |rest| :: rest[j] == ds[j + 1];
    if i == 0 {
      NoneMatches(rest, hex);
    } else {
      OnlyMatches(rest, hex, i - 1);
    }
  }

  lemma {:induction false} NoneMatches(ds: seq<Dep>, hex: Bytes)
    requires forall j | 0 <= j < |ds| :: !(hex <= ds[j].hex)
    ensures Matching(ds, hex) == []
  {
    if ds != [] {
      assert forall j | 0 <= j < |ds[1..]| :: ds[1..][j] == ds[j + 1];
      NoneMatches(ds[1..], hex);
    }
  }

  lemma {:induction false} OneMatchIsOnly(ds: seq<Dep>, hex: Bytes) returns (i: nat)
    requires |Matching(ds, hex)| == 1
    ensures Only(ds, hex, i)
  {
    var rest := ds[1..];
    assert forall j | 0 <= j < |rest| :: rest[j] == ds[j + 1];
    if hex <= ds[0].hex {
      i := 0;
      forall j | 0 <= j < |rest| ensures !(hex <= rest[j].hex) {
        MatchingExactly(rest, hex, rest[j]);
      }
    } else {
      i := OneMatchIsOnly(rest, hex);
      i := i + 1;
    }
  }

  lemma NotAPrefix(a: Bytes, b: Bytes, i: nat)
    requires i < |a| && (i < |b| ==> a[i] != b[i])
    ensures !(a <= b)
  {}

  /** The marks some clients put before an id are taken off, and nothing else is. */
  lemma PrefixIsOptional(hex: Bytes)
    requires IsHexPrefix(hex)
    ensures StripDep(hex) == StripDep(Text("dep-") + hex) == StripDep(Text("dep_") + hex) == hex
  {
    assert Text("dep-")[2] == 112 && Text("dep_")[2] == 112;
    assert HexDigit(hex[2]);
    NotAPrefix(Text("dep-"), hex, 2);
    NotAPrefix(Text("dep_"), hex, 2);
    assert (Text("dep-") + hex)[4..] == hex && (Text("dep_") + hex)[4..] == hex;
  }

  lemma SpelledParts(qname: Bytes, zone: Bytes, service: bool, lab: Bytes)
    requires Spells(qname, zone, service, lab)
    ensures EndsWith(qname, [DOT] + zone) && qname != zone
    ensures Sub(qname, zone) == (if service then Text("_minecraft._tcp.") else []) + lab
    ensures ServicePrefix(Sub(qname, zone)) == Some(if service then 16 else 0)
    ensures Sub(qname, zone)[if service then 16 else 0..] == lab
  {
    var front := (if service then Text("_minecraft._tcp.") else []) + lab;
    assert qname == front + ([DOT] + zone);
    assert Sub(qname, zone) == front;
    var mark := Text("_minecraft._tcp.");
    assert mark[10] == DOT && |mark| == 16;
    if service {
      assert front[16..] == lab && mark <= front;
    } else {
      assert front == lab;
      NotAPrefix(mark, lab, 10);
    }
  }

  lemma PrefixSpells(qname: Bytes, zone: Bytes, k: nat)
    requires EndsWith(qname, [DOT] + zone) && ServicePrefix(Sub(qname, zone)) == Some(k)
    ensures Spells(qname, zone, k > 0, Sub(qname, zone)[k..])
  {
    var sub := Sub(qname, zone);
    assert qname == sub + ([DOT] + zone);
    if k > 0 {
      var mark := Text("_minecraft._tcp.");
      assert sub == mark + sub[16..];
      assert qname == mark + sub[16..] + [DOT] + zone;
    } else {
      assert sub[0..] == sub && [] + sub + [DOT] + zone == qname;
    }
  }

  lemma InItsZone(c: Config, z: Zone, now: int, q: Query)
    requires ConfigOk(c) && ZoneOk(z) && AllLabels(Split(q.qname)) && Ordinary(q) && InZone(q.qname, c.ip)
    ensures Answer(c, z, now, q) == ResolveIp(c, z, q.qname, q.qtype)
  {}

  lemma NoDataSaysNone(c: Config, zone: Bytes)
    requires ConfigOk(c)
    ensures SaysNone(NoData(c, zone), zone, 0) && SaysNone(NxDom(c, zone), zone, 3)
  {
    hide ConfigOk, Split, EncodeName, U32;
  }

  lemma IdResolves(c: Config, z: Zone, now: int, q: Query, service: bool, lab: Bytes, i: nat)
    requires ConfigOk(c) && ZoneOk(z) && AllLabels(Split(q.qname)) && Ordinary(q)
    requires Spells(q.qname, c.ip, service, lab) && IsHexPrefix(StripDep(lab)) && Only(z.deployments, StripDep(lab), i)
    ensures service ==> AllLabels(Split(lab + [DOT] + c.ip))
    ensures Answer(c, z, now, q)
            == if service then ResolveService(c, q.qname, q.qtype, lab + [DOT] + c.ip, z.deployments[i])
               else ResolveAddress(c, q.qname, q.qtype, z.deployments[i])
  {
    SpelledParts(q.qname, c.ip, service, lab);
    OnlyMatches(z.deployments, StripDep(lab), i);
    InItsZone(c, z, now, q);
    if service { TargetEncodes(q.qname, c.ip, 16); }
    hide Answer, Spells, Only, ServicePrefix, Sub, Matching, Split, AllLabels, StripDep, IsHexPrefix, ConfigOk, ZoneOk, EndsWith,
         ResolveService, ResolveAddress;
  }

  /** The name of exactly one deployment: an address question gets that deployment's own
      address, alone; any other question, or one without an address, gets nothing, with SOA. */
  lemma AddressAnswered(c: Config, z: Zone, now: int, q: Query, lab: Bytes, i: nat)
    requires ConfigOk(c) && ZoneOk(z) && AllLabels(Split(q.qname)) && Ordinary(q)
    requires Spells(q.qname, c.ip, false, lab) && IsHexPrefix(StripDep(lab)) && Only(z.deployments, StripDep(lab), i)
    ensures var r, a := Answer(c, z, now, q), z.deployments[i].address;
            if Wants(q, 28) && a.Some? then Says(r, [RR(Split(q.qname), 28, 1, 60, a.value)], [])
            else SaysNone(r, c.ip, 0)
  {
    IdResolves(c, z, now, q, false, lab, i);
    NoDataSaysNone(c, c.ip);
    hide Answer, NoData, Spells, Only, Split, AllLabels, StripDep, IsHexPrefix, ConfigOk, ZoneOk, SaysNone;
  }

  /** Its service name: the deployment's first TCP port at the plain name, whose address comes
      along; nothing, with SOA, if it has no port. */
  lemma ServiceAnswered(c: Config, z: Zone, now: int, q: Query, lab: Bytes, i: nat)
    requires ConfigOk(c) && ZoneOk(z) && AllLabels(Split(q.qname)) && Ordinary(q)
    requires Spells(q.qname, c.ip, true, lab) && IsHexPrefix(StripDep(lab)) && Only(z.deployments, StripDep(lab), i)
    ensures var r, d, target := Answer(c, z, now, q), z.deployments[i], lab + [DOT] + c.ip;
            && AllLabels(Split(target))
            && (if Wants(q, 33) && d.tcp != [] then
                  && d.tcp[0] < 65536
                  && Says(r, [RR(Split(q.qname), 33, 1, 60, [0, 0, 0, 0] + U16(d.tcp[0]) + EncodeLabels(Split(target)))],
                          if d.address.Some? then [RR(Split(target), 28, 1, 60, d.address.value)] else [])
                else SaysNone(r, c.ip, 0))
  {
    IdResolves(c, z, now, q, true, lab, i);
    NoDataSaysNone(c, c.ip);
    var d := z.deployments[i];
    assert DepOk(d);
    if d.tcp != [] { SrvData(d.tcp[0], lab + [DOT] + c.ip); }
    hide Answer, NoData, Spells, Only, Split, AllLabels, StripDep, IsHexPrefix, ConfigOk, ZoneOk, SaysNone, U16, EncodeName, EncodeLabels;
  }

  lemma SrvData(port: nat, target: Bytes)
    requires port < 65536 && AllLabels(Split(target))
    ensures U16(0) + U16(0) + U16(port) + EncodeName(target) == [0, 0, 0, 0] + U16(port) + EncodeLabels(Split(target))
  {
    assert U16(0) + U16(0) == [0, 0, 0, 0];
    hide U16, EncodeLabels;
  }

  /** A name of the zone does not exist exactly unless it spells an id prefix that exactly one
      deployment has: an unknown or an ambiguous prefix gets NXDOMAIN, with SOA. */
  lemma UnknownExactly(c: Config, z: Zone, now: int, q: Query)
    requires ConfigOk(c) && ZoneOk(z) && AllLabels(Split(q.qname)) && Ordinary(q)
    requires EndsWith(q.qname, [DOT] + c.ip)
    ensures var r := Answer(c, z, now, q);
            && (r.rcode == 3 ==> SaysNone(r, c.ip, 3))
            && (r.rcode != 3 ==> r.rcode == 0)
            && (r.rcode == 3 <==> !exists service, lab, i ::
                  Spells(q.qname, c.ip, service, lab) && IsHexPrefix(StripDep(lab)) && Only(z.deployments, StripDep(lab), i))
  {
    var r := Answer(c, z, now, q);
    NoDataSaysNone(c, c.ip);
    InItsZone(c, z, now, q);
    LongerThanZone(q.qname, c.ip);
    if service, lab, i :|
         Spells(q.qname, c.ip, service, lab) && IsHexPrefix(StripDep(lab)) && Only(z.deployments, StripDep(lab), i) {
      if service { ServiceAnswered(c, z, now, q, lab, i); } else { AddressAnswered(c, z, now, q, lab, i); }
    } else {
      var k := ServicePrefix(Sub(q.qname, c.ip));
      if k.Some? {
        PrefixSpells(q.qname, c.ip, k.value);
        var lab := Sub(q.qname, c.ip)[k.value..];
        if IsHexPrefix(StripDep(lab)) && |Matching(z.deployments, StripDep(lab))| == 1 {
          var i := OneMatchIsOnly(z.deployments, StripDep(lab));
        }
      }
      hide Answer, NoData, NxDom, Spells, Only, ServicePrefix, Sub, Matching, Split, AllLabels, StripDep, IsHexPrefix, ConfigOk,
           ZoneOk, EndsWith, SaysNone;
    }
  }

  lemma LongerThanZone(qname: Bytes, zone: Bytes)
    requires EndsWith(qname, [DOT] + zone)
    ensures qname != zone && InZone(qname, zone)
  {}

  // --- zones 2 to 4: relays' addresses ---------------------------------------------------------------

  /** Address records there are exactly for a family asked for and known, one each, holding that
      family's own address; whatever else there is are challenge texts. */
  predicate Serves(an: seq<RR>, q: Query, ttl: nat, f: Family) {
    && (forall i | 0 <= i < |an| :: an[i].typ in {1, 16, 28} && an[i].owner == Split(q.qname) && an[i].cls == 1)
    && (forall i | 0 <= i < |an| && an[i].typ == 1 :: f.a == Some(an[i].rdata) && an[i].ttl == ttl)
    && (forall i | 0 <= i < |an| && an[i].typ == 28 :: f.aaaa == Some(an[i].rdata) && an[i].ttl == ttl)
    && ((exists i | 0 <= i < |an| :: an[i].typ == 1) <==> Wants(q, 1) && f.a.Some?)
    && ((exists i | 0 <= i < |an| :: an[i].typ == 28) <==> Wants(q, 28) && f.aaaa.Some?)
    && (forall i, j | 0 <= i < j < |an| && an[i].typ == an[j].typ :: an[i].typ == 16)
  }

  lemma AddressesServe(q: Query, ttl: nat, f: Family, txts: seq<RR>)
    requires forall i | 0 <= i < |txts| :: txts[i].typ == 16 && txts[i].owner == Split(q.qname) && txts[i].cls == 1
    ensures Serves(Addresses(q.qname, q.qtype, ttl, f) + txts, q, ttl, f)
  {
    hide Split;
    var four, six := IfAsked(q.qname, q.qtype, A, ttl, f.a), IfAsked(q.qname, q.qtype, AAAA, ttl, f.aaaa);
    var an := (four + six) + txts;
    if Wants(q, 1) && f.a.Some? { assert an[0].typ == 1; }
    if Wants(q, 28) && f.aaaa.Some? { assert an[|four|].typ == 28; }
  }

  lemma TxtsAreTexts(z: Zone, now: int, q: Query)
    ensures var txts := TxtAnswers(z, now, q.qname, q.qtype);
            forall i | 0 <= i < |txts| :: txts[i].typ == 16 && txts[i].owner == Split(q.qname) && txts[i].cls == 1
  {
    hide Split, Challenges, TxtData, Text;
  }

  lemma WildcardServes(c: Config, z: Zone, now: int, q: Query, zone: Bytes, f: Family)
    requires ConfigOk(c) && q.qname != zone
    ensures var r := ResolveWildcard(c, z, now, q.qname, q.qtype, zone, f);
            Serves(r.an, q, 300, f) && (r.an != [] ==> Says(r, r.an, [])) && (r.an == [] ==> SaysNone(r, zone, 0))
  {
    TxtsAreTexts(z, now, q);
    AddressesServe(q, 300, f, TxtAnswers(z, now, q.qname, q.qtype));
    NoDataSaysNone(c, zone);
    hide Serves, Addresses, TxtAnswers, NoData, SaysNone, ConfigOk;
    assert NoData(c, zone).an == [] by { NoDataEmpty(c, zone); }
  }

  lemma NoDataEmpty(c: Config, zone: Bytes)
    requires ConfigOk(c)
    ensures NoData(c, zone).an == []
  {}

  /** A label of the app zone that chose a relay gets that relay's addresses and no others: a
      family the relay lacks is not made up for from the zone's. */
  lemma ChosenRelayServes(c: Config, z: Zone, now: int, q: Query, lab: Bytes)
    requires ConfigOk(c) && ZoneOk(z) && AllLabels(Split(q.qname)) && Ordinary(q)
    requires !InZone(q.qname, c.ip) && q.qname == lab + [DOT] + c.app && DOT !in lab && lab in z.appRelays
    ensures var r := Answer(c, z, now, q);
            Serves(r.an, q, 60, z.appRelays[lab]) && (r.an != [] ==> Says(r, r.an, [])) && (r.an == [] ==> SaysNone(r, c.app, 0))
  {
    LabelOf(q.qname, c.app, lab);
    AddressesServe(q, 60, z.appRelays[lab], []);
    assert Addresses(q.qname, q.qtype, 60, z.appRelays[lab]) + [] == Addresses(q.qname, q.qtype, 60, z.appRelays[lab]);
    NoDataSaysNone(c, c.app);
    NoDataEmpty(c, c.app);
    hide Serves, Addresses, NoData, SaysNone, ConfigOk, ZoneOk, Split, AllLabels;
  }

  lemma LabelOf(qname: Bytes, zone: Bytes, lab: Bytes)
    requires qname == lab + [DOT] + zone
    ensures EndsWith(qname, [DOT] + zone) && Sub(qname, zone) == lab && qname != zone && InZone(qname, zone)
  {
    assert qname == lab + ([DOT] + zone);
  }

  /** Every other name of the app zone, and every name of the tcp and box zones, gets the zone's
      own addresses. */
  lemma ZoneAddressesServe(c: Config, z: Zone, now: int, q: Query, zone: Bytes, f: Family)
    requires ConfigOk(c) && ZoneOk(z) && AllLabels(Split(q.qname)) && Ordinary(q) && EndsWith(q.qname, [DOT] + zone)
    requires !InZone(q.qname, c.ip)
    requires || (zone == c.app && f == c.appIps && (DOT in Sub(q.qname, zone) || Sub(q.qname, zone) !in z.appRelays))
             || (c.tcp == Some(zone) && f == c.tcpIps && !InZone(q.qname, c.app))
             || (c.box == Some(zone) && f == c.boxIps && !InZone(q.qname, c.app)
                 && (c.tcp.Some? ==> !InZone(q.qname, c.tcp.value)))
    ensures var r := Answer(c, z, now, q);
            Serves(r.an, q, 300, f) && (r.an != [] ==> Says(r, r.an, [])) && (r.an == [] ==> SaysNone(r, zone, 0))
  {
    LongerThanZone(q.qname, zone);
    WildcardServes(c, z, now, q, zone, f);
    hide Serves, ResolveWildcard, SaysNone, ConfigOk, ZoneOk, Split, AllLabels, InZone, EndsWith, Sub;
  }

  /** The text records are the last ones, and read back as these values in their order. */
  predicate Texts(an: seq<RR>, es: seq<Entry>) {
    && |es| <= |an| && (forall i | 0 <= i < |an| :: an[i].typ == 16 <==> i >= |an| - |es|)
    && forall i | 0 <= i < |es| :: ReadStrings(an[|an| - |es| + i].rdata) == Some(es[i].value)
  }

  lemma WildcardTexts(c: Config, z: Zone, now: int, q: Query, zone: Bytes, f: Family)
    requires ConfigOk(c) && q.qname != zone
    ensures var asked := Wants(q, 16) && Text("_acme-challenge.") <= q.qname;
            Texts(ResolveWildcard(c, z, now, q.qname, q.qtype, zone, f).an, if asked then Challenges(z, q.qname, now) else [])
  {
    TxtAnswersRead(z, now, q);
    NoTexts(q, f);
    NoDataEmpty(c, zone);
    hide Addresses, TxtAnswers, Challenges, ReadStrings, Text, Split, ConfigOk, Texts, NoData;
    var es := if Wants(q, 16) && Text("_acme-challenge.") <= q.qname then Challenges(z, q.qname, now) else [];
    JoinTexts(Addresses(q.qname, q.qtype, 300, f), TxtAnswers(z, now, q.qname, q.qtype), es);
  }

  lemma TxtAnswersRead(z: Zone, now: int, q: Query)
    ensures var asked := Wants(q, 16) && Text("_acme-challenge.") <= q.qname;
            var es, txts := if asked then Challenges(z, q.qname, now) else [], TxtAnswers(z, now, q.qname, q.qtype);
            |txts| == |es| && forall i | 0 <= i < |es| :: txts[i].typ == 16 && ReadStrings(txts[i].rdata) == Some(es[i].value)
  {
    hide Challenges, TxtData, ReadStrings, Text, Split;
    var asked := Wants(q, 16) && Text("_acme-challenge.") <= q.qname;
    var es, txts := if asked then Challenges(z, q.qname, now) else [], TxtAnswers(z, now, q.qname, q.qtype);
    assert txts == TxtRRs(q.qname, es);
    forall i | 0 <= i < |es| ensures txts[i].typ == 16 && ReadStrings(txts[i].rdata) == Some(es[i].value) {
      TxtReads(es[i].value);
    }
  }

  lemma NoTexts(q: Query, f: Family)
    ensures var four := Addresses(q.qname, q.qtype, 300, f); forall i | 0 <= i < |four| :: four[i].typ != 16
  {
    hide Split;
  }

  lemma JoinTexts(four: seq<RR>, txts: seq<RR>, es: seq<Entry>)
    requires (forall i | 0 <= i < |four| :: four[i].typ != 16) && |txts| == |es|
    requires forall i | 0 <= i < |es| :: txts[i].typ == 16 && ReadStrings(txts[i].rdata) == Some(es[i].value)
    ensures Texts(four + txts, es)
  {
    hide ReadStrings;
    var an := four + txts;
    assert forall i | 0 <= i < |es| :: an[|four| + i] == txts[i];
  }

  /** A challenge under any of those names: exactly a question that wants texts, at a name with
      the challenge label, gets the live values, all of them. */
  lemma ChallengeAnswered(c: Config, z: Zone, now: int, q: Query, zone: Bytes, f: Family)
    requires ConfigOk(c) && ZoneOk(z) && AllLabels(Split(q.qname)) && Ordinary(q)
    requires EndsWith(q.qname, [DOT] + zone) && !InZone(q.qname, c.ip)
    requires || (zone == c.app && f == c.appIps && (DOT in Sub(q.qname, zone) || Sub(q.qname, zone) !in z.appRelays))
             || (c.tcp == Some(zone) && f == c.tcpIps && !InZone(q.qname, c.app))
             || (c.box == Some(zone) && f == c.boxIps && !InZone(q.qname, c.app)
                 && (c.tcp.Some? ==> !InZone(q.qname, c.tcp.value)))
    ensures var asked := Wants(q, 16) && Text("_acme-challenge.") <= q.qname;
            Texts(Answer(c, z, now, q).an, if asked then Challenges(z, q.qname, now) else [])
  {
    LongerThanZone(q.qname, zone);
    WildcardTexts(c, z, now, q, zone, f);
    hide ResolveWildcard, ConfigOk, ZoneOk, Split, AllLabels, InZone, EndsWith, Sub, Challenges, ReadStrings, Text, Texts;
  }

  /** A zone's own name: its SOA and its name server, each exactly when asked for. */
  lemma ApexAnswered(c: Config, z: Zone, now: int, q: Query)
    requires ConfigOk(c) && ZoneOk(z) && AllLabels(Split(q.qname)) && Ordinary(q)
    requires q.qname == c.ip || (!InZone(q.qname, c.ip) && q.qname == c.app)
    ensures var r := Answer(c, z, now, q);
            var soa := RR(Split(q.qname), 6, 1, 60, EncodeLabels(Split(c.ns)) + EncodeLabels(Split(c.rname)) + U32(c.serial)
                                                    + U32(3600) + U32(600) + U32(604800) + U32(60));
            var ns := RR(Split(q.qname), 2, 1, 300, EncodeLabels(Split(c.ns)));
            if Wants(q, 6) || Wants(q, 2) then Says(r, (if Wants(q, 6) then [soa] else []) + (if Wants(q, 2) then [ns] else []), [])
            else SaysNone(r, q.qname, 0)
  {
    NoDataSaysNone(c, q.qname);
    ApexDecided(c, q.qname, q.qtype);
    hide NoData, SaysNone, ZoneOk, Split, EncodeLabels, U32, ResolveWildcard, Apex;
  }

  lemma ApexDecided(c: Config, zone: Bytes, qtype: nat)
    requires ConfigOk(c)
    ensures var soa, ns := SoaRR(c, zone), NsRR(c, zone);
            Apex(c, zone, qtype)
            == if qtype == SOA then Hit([soa], []) else if qtype == NS then Hit([ns], []) else if qtype == ANY then Hit([soa] + [ns], [])
               else NoData(c, zone)
  {
    hide ConfigOk, SoaRR, NsRR;
  }

  predicate InOurZones(c: Config, qname: Bytes) {
    || InZone(qname, c.ip) || InZone(qname, c.app)
    || (c.tcp.Some? && InZone(qname, c.tcp.value)) || (c.box.Some? && InZone(qname, c.box.value))
  }

  /** What is refused, and how: other operations are not implemented, other classes and other
      names are refused. */
  lemma RefusedExactly(c: Config, z: Zone, now: int, q: Query)
    requires ConfigOk(c) && ZoneOk(z) && AllLabels(Split(q.qname))
    ensures var r := Answer(c, z, now, q);
            && (r.rcode == 4 <==> q.opcode != 0)
            && (r.rcode == 5 <==> q.opcode == 0 && (!Ordinary(q) || !InOurZones(c, q.qname)))
            && (r.rcode != 0 && r.rcode != 3 ==> r == Resp(r.rcode, false, [], [], []))
  {
    RcodeInZone(c, z, now, q);
    hide ResolveIp, ResolveApp, ResolveWildcard, InZone, Split, ConfigOk, ZoneOk;
  }

  lemma RcodeInZone(c: Config, z: Zone, now: int, q: Query)
    requires ConfigOk(c) && ZoneOk(z) && AllLabels(Split(q.qname))
    ensures InZone(q.qname, c.ip) ==> ResolveIp(c, z, q.qname, q.qtype).rcode in {0, 3}
    ensures InZone(q.qname, c.app) ==> ResolveApp(c, z, now, q.qname, q.qtype).rcode == 0
    ensures forall zone, f :: ResolveWildcard(c, z, now, q.qname, q.qtype, zone, f).rcode == 0
  {
    hide Split, SoaRR, ServicePrefix, ConfigOk, ZoneOk, AllLabels, IsHexPrefix, StripDep, Matching, Sub, EndsWith, Addresses,
         TxtAnswers, SrvRR, NsRR;
  }

  // --- from the query's bytes to the reply's ---------------------------------------------------------

  function Word(opcode: nat, aa: nat, tc: nat, rd: nat, rcode: nat): nat {
    32768 + 2048 * opcode + 1024 * aa + 512 * tc + 256 * rd + rcode
  }

  lemma HighBits(opcode: nat, aa: nat, tc: nat, rd: nat, rcode: nat)
    requires opcode < 16 && aa < 2 && tc < 2 && rd < 2 && rcode < 16
    ensures var n := Word(opcode, aa, tc, rd, rcode);
            n / 32768 == 1 && n / 2048 % 16 == opcode && n / 1024 % 2 == aa
  {
    var n := Word(opcode, aa, tc, rd, rcode);
    assert n / 2048 == 16 + opcode;
    assert n / 1024 == 2 * (16 + opcode) + aa;
  }

  lemma LowBits(opcode: nat, aa: nat, tc: nat, rd: nat, rcode: nat)
    requires opcode < 16 && aa < 2 && tc < 2 && rd < 2 && rcode < 16
    ensures var n := Word(opcode, aa, tc, rd, rcode);
            n / 512 % 2 == tc && n / 256 % 2 == rd && n / 128 % 2 == 0 && n % 16 == rcode
  {
    var n, h := Word(opcode, aa, tc, rd, rcode), 32 + 2 * opcode + aa;
    assert n / 512 == 2 * h + tc;
    assert n / 256 == 2 * (2 * h + tc) + rd;
    assert n / 128 == 2 * (2 * (2 * h + tc) + rd);
    assert n == 16 * (16 * (2 * (2 * h + tc) + rd)) + rcode;
  }

  /** The header's flag word, field by field: a reply, the operation and the recursion bit
      echoed, authority and result the answer's, recursion never on offer. */
  predicate FlagsSay(n: nat, q: Query, r: Resp, tc: bool) {
    && n / 32768 == 1 && n / 2048 % 16 == q.opcode && (n / 1024 % 2 == 1 <==> r.aa) && (n / 512 % 2 == 1 <==> tc)
    && (n / 256 % 2 == 1 <==> q.rd) && n / 128 % 2 == 0 && n % 16 == r.rcode
  }

  lemma FlagsRead(q: Query, r: Resp, tc: bool)
    requires q.opcode < 16 && r.rcode < 16
    ensures FlagsSay(Flags(q, r, tc), q, r, tc)
  {
    var aa, t, rd := if r.aa then 1 else 0, if tc then 1 else 0, if q.rd then 1 else 0;
    HighBits(q.opcode, aa, t, rd, r.rcode);
    LowBits(q.opcode, aa, t, rd, r.rcode);
    FlagsAreWord(q, r, tc);
  }

  lemma SmallMod(n: nat)
    requires n < 16
    ensures n % 16 == n
  {}

  lemma FlagsAreWord(q: Query, r: Resp, tc: bool)
    requires q.opcode < 16 && r.rcode < 16
    ensures Flags(q, r, tc)
            == Word(q.opcode, if r.aa then 1 else 0, if tc then 1 else 0, if q.rd then 1 else 0, r.rcode)
  {
    SmallMod(q.opcode);
    SmallMod(r.rcode);
    FlagsAreSum(q, r, tc, q.opcode % 16, r.rcode % 16);
  }

  lemma FlagsAreSum(q: Query, r: Resp, tc: bool, opcode: nat, rcode: nat)
    requires opcode == q.opcode % 16 && rcode == r.rcode % 16
    ensures Flags(q, r, tc)
            == Word(opcode, if r.aa then 1 else 0, if tc then 1 else 0, if q.rd then 1 else 0, rcode)
  {}

  /** The reply's bytes: header, question, and exactly the answer's records, with an OPT record
      if and only if one was sent. */
  predicate Carries(m: Bytes, q: Query, r: Resp) {
    && |m| >= 12 && Reads(m, q, r.an + r.au + r.ad + if q.hadOpt then [OPT_RR] else [])
    && Get16(m, 6) == |r.an| && Get16(m, 8) == |r.au| && FlagsSay(Get16(m, 2), q, r, false)
  }

  /** Over TCP the reply to a parsed query carries exactly the answer about its question. */
  lemma ReplyCarriesAnswer(c: Config, z: Zone, now: int, msg: Bytes)
    requires ConfigOk(c) && ZoneOk(z) && ParseQuery(msg).Some?
    ensures var q := ParseQuery(msg).value;
            AllLabels(Split(q.qname))
            && Handle(c, z, now, msg, 0).Some? && Carries(Handle(c, z, now, msg, 0).value, q, Answer(c, z, now, q))
  {
    hide *;
    HandleBuilds(c, z, now, msg);
    var q := ParseQuery(msg).value;
    SmallRcode(c, z, now, q);
    BuiltCarries(q, Answer(c, z, now, q));
  }

  lemma HandleBuilds(c: Config, z: Zone, now: int, msg: Bytes)
    requires ConfigOk(c) && ZoneOk(z) && ParseQuery(msg).Some?
    ensures var q := ParseQuery(msg).value;
            && AllLabels(Split(q.qname)) && q.id < 65536 && q.opcode < 16
            && SoundResp(Answer(c, z, now, q)) && Handle(c, z, now, msg, 0) == Some(BuildResponse(q, Answer(c, z, now, q), 0))
  {
    ParsedBounds(msg);
    hide Answer, ParseQuery, BuildResponse, SoundResp, Full, Split;
    assert SoundResp(Decide(c, z, now, msg));
  }

  lemma SmallRcode(c: Config, z: Zone, now: int, q: Query)
    requires ConfigOk(c) && ZoneOk(z) && AllLabels(Split(q.qname))
    ensures Answer(c, z, now, q).rcode < 16
  {
    RcodeInZone(c, z, now, q);
    hide ResolveIp, ResolveApp, ResolveWildcard, InZone, Split, ConfigOk, ZoneOk;
  }

  lemma BuiltCarries(q: Query, r: Resp)
    requires SoundResp(r) && q.id < 65536 && q.opcode < 16 && r.rcode < 16
    ensures Carries(BuildResponse(q, r, 0), q, r)
  {
    ReplyReads(q, r, 0);
    HeaderCarries(q, r);
    FlagsRead(q, r, false);
    assert Shown(q, r, 0) == r.an + r.au + r.ad + if q.hadOpt then [OPT_RR] else [];
    hide BuildResponse, ReadRRs, Get16, Flags, FlagsSay, Shown;
  }

  lemma HeaderCarries(q: Query, r: Resp)
    requires SoundResp(r) && q.id < 65536
    ensures var m := BuildResponse(q, r, 0);
            |m| >= 12 && Get16(m, 6) == |r.an| && Get16(m, 8) == |r.au| && Get16(m, 2) == Flags(q, r, false)
  {
    var flags := Flags(q, r, false);
    var h := Six(q.id, flags, 1, |r.an|, |r.au|, |Additional(q, r)|);
    var m := BuildResponse(q, r, 0);
    hide Flags, EncodeRRs, Get16, Six;
    assert m[..12] == h;
    SixReads(m, q.id, flags, 1, |r.an|, |r.au|, |Additional(q, r)|);
  }

  /** An address question as a client writes it. */
  function AskAddress(id: nat, rd: bool, ls: seq<Bytes>): Bytes
    requires id < 65536 && AllLabels(ls) && |ls| <= MAX_LABELS
  {
    NoneSound();
    WriteQuery(id, if rd then 256 else 0, ls, 28, 1, [], [], [])
  }

  lemma NoneSound()
    ensures var none: seq<RR> := []; none + none + none == none && AllSound(none + none + none) && !OptAmong(none + none + none)
  {
    var none: seq<RR> := [];
    assert none + none + none == none;
  }

  lemma AskedFor(id: nat, rd: bool, ls: seq<Bytes>)
    requires id < 65536 && AllLabels(ls) && |ls| <= MAX_LABELS
    ensures var q := ParseQuery(AskAddress(id, rd, ls));
            q.Some? && q.value.id == id && q.value.opcode == 0 && q.value.qname == Lower(Join(ls))
            && q.value.qtype == 28 && q.value.qclass == 1 && !q.value.hadOpt
  {
    NoneSound();
    ParsesAddress(id, if rd then 256 else 0, ls, [], [], []);
    hide ParseQuery, WriteQuery, AllLabels, Lower, Join;
  }

  lemma PlainFlags(flags: nat)
    requires flags == 0 || flags == 256
    ensures Opcode(flags) == 0
  {}

  lemma ParsesAddress(id: nat, flags: nat, ls: seq<Bytes>, an: seq<RR>, au: seq<RR>, ad: seq<RR>)
    requires id < 65536 && AllLabels(ls) && |ls| <= MAX_LABELS && (flags == 0 || flags == 256)
    requires |an| < 65536 && |au| < 65536 && |ad| < 65536 && AllSound(an + au + ad) && !OptAmong(an + au + ad)
    ensures var q := ParseQuery(WriteQuery(id, flags, ls, 28, 1, an, au, ad));
            q.Some? && q.value.id == id && q.value.opcode == 0 && q.value.qname == Lower(Join(ls))
            && q.value.qtype == 28 && q.value.qclass == 1 && !q.value.hadOpt
  {
    hide *;
    PlainFlags(flags);
    WrittenQueryParses(id, flags, ls, 28, 1, an, au, ad);
  }

  lemma ItsAddress(c: Config, z: Zone, now: int, q: Query, lab: Bytes, i: nat)
    requires ConfigOk(c) && ZoneOk(z) && AllLabels(Split(q.qname)) && q.opcode == 0 && q.qclass == 1 && q.qtype == 28
    requires Spells(q.qname, c.ip, false, lab) && IsHexPrefix(StripDep(lab)) && Only(z.deployments, StripDep(lab), i)
    requires z.deployments[i].address.Some?
    ensures Answer(c, z, now, q) == Resp(0, true, [RR(Split(q.qname), 28, 1, 60, z.deployments[i].address.value)], [], [])
  {
    AddressAnswered(c, z, now, q, lab, i);
    hide Answer, Spells, Split, AllLabels, ConfigOk, ZoneOk;
  }

  lemma OneRecord(m: Bytes, q: Query, x: RR)
    requires !q.hadOpt && Carries(m, q, Resp(0, true, [x], [], []))
    ensures Get16(m, 0) == q.id && Get16(m, 2) % 16 == 0 && Counts(m) == 1
    ensures 12 + |q.questionRaw| <= |m| && ReadRRs(m, 12 + |q.questionRaw|, 1) == Some(([x], |m|))
  {
    hide ReadRRs, Get16, Counts;
    var none: seq<RR> := [];
    assert [x] + none + none + none == [x];
    ReadsAsMany(m, 12 + |q.questionRaw|, Counts(m));
  }

  lemma {:induction false} ReadsAsMany(m: Bytes, off: nat, n: nat)
    ensures ReadRRs(m, off, n).Some? ==> |ReadRRs(m, off, n).value.0| == n
    decreases n
  {
    hide ReadRR;
    if n > 0 && ReadRR(m, off).Some? { ReadsAsMany(m, ReadRR(m, off).value.1, n - 1); }
  }

  /** End to end: a client writes an address question for the name of exactly one deployment,
      and reads from the reply one record, that deployment's address under the very name. */
  lemma DeploymentIsFound(c: Config, z: Zone, now: int, id: nat, rd: bool, ls: seq<Bytes>, lab: Bytes, i: nat)
    requires ConfigOk(c) && ZoneOk(z) && id < 65536 && AllLabels(ls) && |ls| <= MAX_LABELS
    requires Spells(Lower(Join(ls)), c.ip, false, lab) && IsHexPrefix(StripDep(lab)) && Only(z.deployments, StripDep(lab), i)
    requires i < |z.deployments| && z.deployments[i].address.Some?
    ensures var m := Handle(c, z, now, AskAddress(id, rd, ls), 0);
            && m.Some? && |m.value| >= 12 && Get16(m.value, 0) == id && Get16(m.value, 2) % 16 == 0 && Counts(m.value) == 1
            && exists off: nat :: off <= |m.value| && ReadRRs(m.value, off, 1)
                 == Some(([RR(Split(Lower(Join(ls))), 28, 1, 60, z.deployments[i].address.value)], |m.value|))
  {
    hide *;
    var msg := AskAddress(id, rd, ls);
    AskedFor(id, rd, ls);
    ReplyCarriesAnswer(c, z, now, msg);
    var q := ParseQuery(msg).value;
    ItsAddress(c, z, now, q, lab, i);
    CarriesSized(Handle(c, z, now, msg, 0).value, q, Answer(c, z, now, q));
    OneRecord(Handle(c, z, now, msg, 0).value, q, RR(Split(q.qname), 28, 1, 60, z.deployments[i].address.value));
  }

  lemma CarriesSized(m: Bytes, q: Query, r: Resp)
    requires Carries(m, q, r)
    ensures |m| >= 12
  {}
}
