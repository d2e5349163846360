/** One query in, one reply out, over UDP and over TCP's length framing
    (relay/dns-relay.js, handle and the two transports; RFC 1035, section 4.2.2). */
module DnsServer {
  import opened Common
  import opened DnsWire
  import opened DnsMessage
  import opened TxtChallenges
  import opened DnsZone

  lemma {:induction false} LabelsSize(ls: seq<Bytes>)
    requires AllLabels(ls)
    ensures |EncodeLabels(ls)| <= 64 * |ls| + 1
  {
    if ls != [] { LabelsSize(ls[1..]); }
  }

  /** What the parser lets through is bounded, and can be answered. */
  lemma ParsedBounds(msg: Bytes)
    requires ParseQuery(msg).Some?
    ensures var q := ParseQuery(msg).value;
            |q.qname| <= 4095 && |q.questionRaw| <= 4101 && q.id < 65536 && AllLabels(Split(q.qname))
  {
    var ls := ParsedQuestion(msg);
    LabelsSize(ls);
    QnameEncodes(ls);
    hide ParseQuery, EncodeLabels, Split, Join;
    var q := ParseQuery(msg).value;
    assert |q.qname| == |Join(ls)|;
    if ls == [] { assert Join(ls) == [] by { JoinNone(); } }
  }

  lemma JoinNone()
    ensures Join([]) == []
  {}

  /** The answer to a parsed query. */
  function Decide(c: Config, z: Zone, now: int, msg: Bytes): (r: Resp)
    requires ConfigOk(c) && ZoneOk(z) && ParseQuery(msg).Some?
    ensures SoundResp(r) && ParseQuery(msg).value.id < 65536 && |Full(ParseQuery(msg).value, r)| < 65536
  {
    var q := ParseQuery(msg).value;
    ParsedBounds(msg);
    AnswerBounded(c, z, now, q);
    BoundedFits(q, Answer(c, z, now, q));
    Answer(c, z, now, q)
  }

  /** handle: silent on what does not parse. */
  function Handle(c: Config, z: Zone, now: int, msg: Bytes, limit: nat): Option<Bytes>
    requires ConfigOk(c) && ZoneOk(z)
  {
    if ParseQuery(msg).None? then None
    else Some(BuildResponse(ParseQuery(msg).value, Decide(c, z, now, msg), limit))
  }

  /** For every query and every zone state within the caps, the TCP reply fits its 16-bit
      length, and the UDP reply fits 1232 bytes unless the bare question already does not. */
  lemma RepliesFit(c: Config, z: Zone, now: int, msg: Bytes)
    requires ConfigOk(c) && ZoneOk(z) && ParseQuery(msg).Some?
    ensures |Handle(c, z, now, msg, 0).value| < 65536
    ensures |ParseQuery(msg).value.questionRaw| <= 1209 ==> |Handle(c, z, now, msg, UDP_MAX).value| <= UDP_MAX
  {
    UdpFitsExactly(ParseQuery(msg).value, Decide(c, z, now, msg), UDP_MAX);
    hide ParseQuery, Decide, Full, Truncated;
  }

  /** A client finds its id, its own question, and after it exactly these counted records,
      the last of which ends on the last byte. */
  predicate Reads(m: Bytes, q: Query, rs: seq<RR>) {
    var off := 12 + |q.questionRaw|;
    && off <= |m| && Get16(m, 0) == q.id && Get16(m, 4) == 1 && m[12..off] == q.questionRaw
    && ReadRRs(m, off, Counts(m)) == Some((rs, |m|))
  }

  predicate TcBit(m: Bytes)
    requires |m| >= 4
  {
    Get16(m, 2) / 512 % 2 == 1
  }

  /** Every reply is well formed; over TCP it carries everything, over UDP everything or, with
      TC set, just the question and the EDNS record. */
  lemma RepliesAreWellFormed(c: Config, z: Zone, now: int, msg: Bytes, limit: nat)
    requires ConfigOk(c) && ZoneOk(z) && ParseQuery(msg).Some?
    ensures var q, r, m := ParseQuery(msg).value, Decide(c, z, now, msg), Handle(c, z, now, msg, limit).value;
            |m| >= 12 && Reads(m, q, if TcBit(m) then Kept(q) else r.an + r.au + Additional(q, r))
            && (limit == 0 ==> !TcBit(m))
  {
    hide ParseQuery, Decide, Full, Truncated, ReadRRs, Counts, Get16, Kept, Additional;
    ReplyReads(ParseQuery(msg).value, Decide(c, z, now, msg), limit);
  }

  // --- what the answers are about -------------------------------------------------------------------

  predicate AllOwned(rs: seq<RR>, owner: seq<Bytes>) { forall i | 0 <= i < |rs| :: rs[i].owner == owner }

  lemma ApexOwned(c: Config, zone: Bytes, qtype: nat)
    requires ConfigOk(c)
    ensures AllOwned(Apex(c, zone, qtype).an, Split(zone))
  {
    hide Split, EncodeName, U32;
  }

  lemma OwnedConcat(a: seq<RR>, b: seq<RR>, owner: seq<Bytes>)
    requires AllOwned(a, owner) && AllOwned(b, owner)
    ensures AllOwned(a + b, owner)
  {}

  lemma AddressesOwned(qname: Bytes, qtype: nat, ttl: nat, f: Family)
    ensures AllOwned(Addresses(qname, qtype, ttl, f), Split(qname))
  {
    hide Split;
  }

  lemma HitOwned(c: Config, zone: Bytes, an: seq<RR>, owner: seq<Bytes>)
    requires ConfigOk(c) && AllOwned(an, owner)
    ensures AllOwned(HitOrNoData(c, zone, an).an, owner)
  {
    hide ConfigOk, SoaRR;
  }

  lemma WildcardOwned(c: Config, z: Zone, now: int, qname: Bytes, qtype: nat, zone: Bytes, f: Family)
    requires ConfigOk(c)
    ensures AllOwned(ResolveWildcard(c, z, now, qname, qtype, zone, f).an, Split(qname))
  {
    hide Split, Apex, SoaRR, Challenges, TxtData, Text, StartsWith, ConfigOk, Addresses, HitOrNoData;
    ApexOwned(c, zone, qtype);
    AddressesOwned(qname, qtype, 300, f);
    OwnedConcat(Addresses(qname, qtype, 300, f), TxtAnswers(z, now, qname, qtype), Split(qname));
    HitOwned(c, zone, Addresses(qname, qtype, 300, f) + TxtAnswers(z, now, qname, qtype), Split(qname));
  }

  lemma AppOwned(c: Config, z: Zone, now: int, qname: Bytes, qtype: nat)
    requires ConfigOk(c) && InZone(qname, c.app)
    ensures AllOwned(ResolveApp(c, z, now, qname, qtype).an, Split(qname))
  {
    assert qname != c.app ==> EndsWith(qname, [DOT] + c.app);
    hide Split, Apex, ResolveWildcard, ConfigOk, Addresses, HitOrNoData, EndsWith, InZone;
    ApexOwned(c, c.app, qtype);
    WildcardOwned(c, z, now, qname, qtype, c.app, c.appIps);
    if qname != c.app && Sub(qname, c.app) in z.appRelays {
      AddressesOwned(qname, qtype, RELAY_TTL, z.appRelays[Sub(qname, c.app)]);
      HitOwned(c, c.app, Addresses(qname, qtype, RELAY_TTL, z.appRelays[Sub(qname, c.app)]), Split(qname));
    }
  }

  lemma IpOwned(c: Config, z: Zone, qname: Bytes, qtype: nat)
    requires ConfigOk(c) && ZoneOk(z) && InZone(qname, c.ip) && AllLabels(Split(qname))
    ensures AllOwned(ResolveIp(c, z, qname, qtype).an, Split(qname))
  {
    ApexOwned(c, c.ip, qtype);
    if qname != c.ip && ServicePrefix(Sub(qname, c.ip)).Some? {
      IdOwned(c, z, qname, qtype, ServicePrefix(Sub(qname, c.ip)).value);
    }
    hide Split, Apex, SoaRR, ResolveId, ServicePrefix, ConfigOk, ZoneOk, AllLabels;
  }

  lemma IdOwned(c: Config, z: Zone, qname: Bytes, qtype: nat, k: nat)
    requires ConfigOk(c) && ZoneOk(z) && AllLabels(Split(qname))
    requires EndsWith(qname, [DOT] + c.ip) && ServicePrefix(Sub(qname, c.ip)) == Some(k)
    ensures AllOwned(ResolveId(c, z, qname, qtype, k).an, Split(qname))
  {
    hide Split, SoaRR, ServicePrefix, ConfigOk, ZoneOk, AllLabels, IsHexPrefix, StripDep, Matching, Sub, EndsWith;
  }

  /** Every answer is about the very name asked for, and a claim of authority is made exactly
      for ordinary Internet questions inside one of our zones; no records come without it. */
  lemma AnswersAreAboutTheQuestion(c: Config, z: Zone, now: int, q: Query)
    requires ConfigOk(c) && ZoneOk(z) && AllLabels(Split(q.qname))
    ensures var r := Answer(c, z, now, q);
            && AllOwned(r.an, Split(q.qname))
            && (r.aa <==> q.opcode == 0 && (q.qclass == 1 || q.qclass == ANY)
                          && (InZone(q.qname, c.ip) || InZone(q.qname, c.app) || (c.tcp.Some? && InZone(q.qname, c.tcp.value))
                              || (c.box.Some? && InZone(q.qname, c.box.value))))
            && (!r.aa ==> r.an == [] && r.au == [] && r.ad == [] && r.rcode in {4, 5})
  {
    AuthorityIsOurs(c, z, now, q);
    if InZone(q.qname, c.ip) { IpOwned(c, z, q.qname, q.qtype); }
    else if InZone(q.qname, c.app) { AppOwned(c, z, now, q.qname, q.qtype); }
    else {
      if c.tcp.Some? { WildcardOwned(c, z, now, q.qname, q.qtype, c.tcp.value, c.tcpIps); }
      if c.box.Some? { WildcardOwned(c, z, now, q.qname, q.qtype, c.box.value, c.boxIps); }
    }
    hide Split, ResolveIp, ResolveApp, ResolveWildcard, InZone, ConfigOk, ZoneOk;
  }

  lemma AuthorityIsOurs(c: Config, z: Zone, now: int, q: Query)
    requires ConfigOk(c) && ZoneOk(z) && AllLabels(Split(q.qname))
    ensures InZone(q.qname, c.ip) ==> ResolveIp(c, z, q.qname, q.qtype).aa
    ensures InZone(q.qname, c.app) ==> ResolveApp(c, z, now, q.qname, q.qtype).aa
    ensures forall zone, f :: ResolveWildcard(c, z, now, q.qname, q.qtype, zone, f).aa
  {
    hide Split, SoaRR, ServicePrefix, ConfigOk, ZoneOk, AllLabels, IsHexPrefix, StripDep, Matching, Sub, EndsWith, Addresses,
         TxtAnswers, SrvRR, NsRR;
  }

  /** A challenge query is answered with exactly the live values of its name, in push order;
      a client that joins the strings of a record gets the value back. */
  lemma ChallengesAreServed(c: Config, z: Zone, now: int, qname: Bytes, zone: Bytes, f: Family)
    requires ConfigOk(c) && qname != zone && StartsWith(qname, Text("_acme-challenge."))
    ensures var an, es := ResolveWildcard(c, z, now, qname, TXT, zone, f).an, Challenges(z, qname, now);
            |an| == |es| && forall i | 0 <= i < |es| :: ReadStrings(an[i].rdata) == Some(es[i].value)
  {
    var es := Challenges(z, qname, now);
    hide Challenges, TxtData, ReadStrings, Text, Split, SoaRR, ConfigOk;
    var rs := TxtRRs(qname, es);
    assert Addresses(qname, TXT, 300, f) == [] && [] + rs == rs;
    forall i | 0 <= i < |es| ensures ReadStrings(rs[i].rdata) == Some(es[i].value) {
      TxtReads(es[i].value);
    }
  }

  // --- TCP framing ------------------------------------------------------------------------------------

  /** The messages complete in a stream so far, and the bytes left over. */
  function Frames(buf: Bytes): (seq<Bytes>, Bytes)
    decreases |buf|
  {
    if |buf| < 2 || |buf| < 2 + Get16(buf, 0) then ([], buf)
    else
      var len := Get16(buf, 0);
      var (rest, left) := Frames(buf[2 + len..]);
      ([buf[2..2 + len]] + rest, left)
  }

  function Framed(outs: seq<Bytes>): Bytes
    requires forall i | 0 <= i < |outs| :: |outs[i]| < 65536
  {
    if outs == [] then [] else U16(|outs[0]|) + outs[0] + Framed(outs[1..])
  }

  /** However the stream is cut, the same messages come out in the same order. */
  lemma {:induction false} FramesIgnoreChunking(a: Bytes, b: Bytes)
    ensures var (qs, left) := Frames(a);
            var (rs, end) := Frames(left + b);
            Frames(a + b) == (qs + rs, end)
    decreases |a|
  {
    if |a| < 2 || |a| < 2 + Get16(a, 0) {
      assert [] + Frames(a + b).0 == Frames(a + b).0;
    } else {
      var len := Get16(a, 0);
      assert Get16(a + b, 0) == len && (a + b)[2..2 + len] == a[2..2 + len];
      assert (a + b)[2 + len..] == a[2 + len..] + b;
      FramesIgnoreChunking(a[2 + len..], b);
      var (qs, left) := Frames(a[2 + len..]);
      assert ([a[2..2 + len]] + qs) + Frames(left + b).0 == [a[2..2 + len]] + (qs + Frames(left + b).0);
    }
  }

  /** The replies written to the socket are read back one by one. */
  lemma {:induction false} FramedReads(outs: seq<Bytes>)
    requires forall i | 0 <= i < |outs| :: |outs[i]| < 65536
    ensures Frames(Framed(outs)) == (outs, [])
  {
    if outs != [] {
      var out, rest := outs[0], Framed(outs[1..]);
      var buf := U16(|out|) + out + rest;
      Got16(buf, 0, |out|) by { assert buf[0..2] == U16(|out|); }
      assert buf[2..2 + |out|] == out && buf[2 + |out|..] == rest;
      FramedReads(outs[1..]);
      assert [out] + outs[1..] == outs;
    }
  }

  class TcpConnection {
    var buf: Bytes

    constructor ()
      ensures buf == []
    {
      buf := [];
    }

    /** The data handler: append, then take off every complete message. */
    method OnData(d: Bytes) returns (queries: seq<Bytes>)
      modifies this
      ensures (queries, buf) == Frames(old(buf) + d)
    {
      buf := if buf != [] then buf + d else d;
      assert old(buf) + d == buf;
      queries := [];
      ghost var all := Frames(buf);
      assert [] + all.0 == all.0;
      while true
        invariant all == (queries + Frames(buf).0, Frames(buf).1)
        decreases |buf|
      {
        if |buf| < 2 { assert queries + [] == queries; return; }
        var len := Get16(buf, 0);
        if |buf| < 2 + len { assert queries + [] == queries; return; }
        var query := buf[2..2 + len];
        ghost var rest := Frames(buf[2 + len..]).0;
        assert queries + ([query] + rest) == (queries + [query]) + rest;
        buf := buf[2 + len..];
        queries := queries + [query];
      }
    }
  }
}
