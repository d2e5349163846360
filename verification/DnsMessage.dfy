/** Queries in, replies out (relay/dns-relay.js, parseQuery and buildResponse): the question
    is echoed byte for byte, and a reader of the reply finds exactly the counted records. */
module DnsMessage {
  import opened Common
  import opened DnsWire

  datatype Query = Query(id: nat, opcode: nat, rd: bool, qname: Bytes, qtype: nat, qclass: nat,
                         questionRaw: Bytes, hadOpt: bool)

  // --- reading a query ------------------------------------------------------------------------

  /** The owner of a record nobody looks at: labels up to a root or a pointer. */
  function SkipName(msg: Bytes, p: nat): (end: nat)
    decreases if p < |msg| then |msg| - p else 0
  {
    if p >= |msg| then p
    else if msg[p] == 0 then p + 1
    else if msg[p] >= 64 then p + 2
    else SkipName(msg, p + 1 + msg[p])
  }

  /** Is there an EDNS OPT among the next `n` records, as far as they can be followed? */
  function HasOpt(msg: Bytes, p: nat, n: nat): bool
    decreases n
  {
    if n == 0 || p >= |msg| then false
    else
      var q := SkipName(msg, p);
      if q + 10 > |msg| then false
      else Get16(msg, q) == OPT || HasOpt(msg, q + 10 + Get16(msg, q + 8), n - 1)
  }

  function Counts(msg: Bytes): nat
    requires |msg| >= 12
  {
    Get16(msg, 6) + Get16(msg, 8) + Get16(msg, 10)
  }

  function Opcode(flags: nat): nat { flags / 2048 % 16 }

  predicate Recursion(flags: nat) { flags / 256 % 2 == 1 }

  function ParseQuery(msg: Bytes): (r: Option<Query>)
    ensures r.Some? ==> r.value.id < 65536 && r.value.opcode < 16
  {
    if |msg| < 12 || Get16(msg, 2) >= 0x8000 || Get16(msg, 4) != 1 then None
    else match ReadLabels(msg, 12, MAX_LABELS)
      case None => None
      case Some((labels, off)) =>
        if off + 4 > |msg| then None
        else Some(Query(Get16(msg, 0), Opcode(Get16(msg, 2)), Recursion(Get16(msg, 2)),
                        Lower(Join(labels)), Get16(msg, off), Get16(msg, off + 2), msg[12..off + 4],
                        HasOpt(msg, off + 4, Counts(msg))))
  }

  function After(labels: seq<Bytes>, r: Option<(seq<Bytes>, nat)>): Option<(seq<Bytes>, nat)> {
    match r
    case None => None
    case Some((ls, end)) => Some((labels + ls, end))
  }

  /** The QNAME loop. */
  method ReadLabelsLoop(msg: Bytes) returns (r: Option<(seq<Bytes>, nat)>)
    ensures r == ReadLabels(msg, 12, MAX_LABELS)
  {
    var off, labels: seq<Bytes> := 12, [];
    ghost var all := ReadLabels(msg, 12, MAX_LABELS);
    assert all == After([], all) by { if all.Some? { assert [] + all.value.0 == all.value.0; } }
    while true
      invariant |labels| <= MAX_LABELS && 12 <= off
      invariant all == After(labels, ReadLabels(msg, off, MAX_LABELS - |labels|))
      decreases |msg| - off
    {
      if off >= |msg| { return None; }
      var len := msg[off];
      if len == 0 {
        assert labels + [] == labels;
        return Some((labels, off + 1));
      }
      if len >= 64 { return None; }
      if off + 1 + len > |msg| || |labels| > 63 { return None; }
      var one := msg[off + 1..off + 1 + len];
      ghost var rest := ReadLabels(msg, off + 1 + len, MAX_LABELS - |labels| - 1);
      if rest.Some? { assert labels + ([one] + rest.value.0) == labels + [one] + rest.value.0; }
      labels := labels + [one];
      off := off + 1 + len;
    }
  }

  /** One owner name skipped. */
  method SkipNameLoop(msg: Bytes, start: nat) returns (p: nat)
    ensures p == SkipName(msg, start)
  {
    p := start;
    while p < |msg|
      invariant SkipName(msg, p) == SkipName(msg, start)
    {
      var l := msg[p];
      if l == 0 { return p + 1; }
      if l >= 64 { return p + 2; }
      p := p + 1 + l;
    }
  }

  /** parseQuery as the source runs it. */
  method ParseQueryLoop(msg: Bytes) returns (r: Option<Query>)
    ensures r == ParseQuery(msg)
  {
    hide ReadLabels, SkipName, Lower, Join, Get16;
    if |msg| < 12 { return None; }
    var flags := Get16(msg, 2);
    if flags >= 0x8000 { return None; }
    if Get16(msg, 4) != 1 { return None; }
    var counts := Counts(msg);
    var name := ReadLabelsLoop(msg);
    if name.None? { return None; }
    var (labels, off) := name.value;
    if off + 4 > |msg| { return None; }
    var hadOpt, i := false, 0;
    var p: nat := off + 4;
    while i < counts && p < |msg|
      invariant i <= counts
      invariant HasOpt(msg, off + 4, counts) == (hadOpt || HasOpt(msg, p, counts - i))
    {
      p := SkipNameLoop(msg, p);
      if p + 10 > |msg| { break; }
      if Get16(msg, p) == OPT { hadOpt := true; }
      p := p + 10 + Get16(msg, p + 8);
      i := i + 1;
    }
    return Some(Query(Get16(msg, 0), Opcode(flags), Recursion(flags), Lower(Join(labels)),
                      Get16(msg, off), Get16(msg, off + 2), msg[12..off + 4], hadOpt));
  }

  // --- the query writer, and that reading undoes it -----------------------------------------------

  function Question(ls: seq<Bytes>, qtype: nat, qclass: nat): Bytes
    requires AllLabels(ls) && qtype < 65536 && qclass < 65536
  {
    EncodeLabels(ls) + U16(qtype) + U16(qclass)
  }

  function Six(a: nat, b: nat, c: nat, d: nat, e: nat, f: nat): (r: Bytes)
    requires a < 65536 && b < 65536 && c < 65536 && d < 65536 && e < 65536 && f < 65536
    ensures |r| == 12
  {
    U16(a) + U16(b) + U16(c) + U16(d) + U16(e) + U16(f)
  }

  lemma SixReads(msg: Bytes, a: nat, b: nat, c: nat, d: nat, e: nat, f: nat)
    requires a < 65536 && b < 65536 && c < 65536 && d < 65536 && e < 65536 && f < 65536
    requires |msg| >= 12 && msg[..12] == Six(a, b, c, d, e, f)
    ensures Get16(msg, 0) == a && Get16(msg, 2) == b && Get16(msg, 4) == c
    ensures Get16(msg, 6) == d && Get16(msg, 8) == e && Get16(msg, 10) == f
  {
    var h := msg[..12];
    assert forall i | 0 <= i < 12 :: msg[i] == h[i];
  }

  lemma {:induction false} SkipIsRead(msg: Bytes, off: nat, room: nat)
    requires ReadLabels(msg, off, room).Some?
    ensures SkipName(msg, off) == ReadLabels(msg, off, room).value.1
    decreases |msg| - off
  {
    if msg[off] != 0 { SkipIsRead(msg, off + 1 + msg[off], room - 1); }
  }

  predicate OptAmong(rs: seq<RR>) { exists i | 0 <= i < |rs| :: rs[i].typ == OPT }

  /** The lenient walk over well-formed records sees an OPT exactly when there is one. */
  lemma {:induction false} OptFound(msg: Bytes, p: nat, rs: seq<RR>)
    requires AllSound(rs) && p + |EncodeRRs(rs)| == |msg| && msg[p..] == EncodeRRs(rs)
    ensures HasOpt(msg, p, |rs|) <==> OptAmong(rs)
    decreases |rs|
  {
    hide EncodeRR, SkipName, Get16, ReadLabels;
    if rs != [] {
      var e, x := EncodeRRs(rs), EncodeRR(rs[0]);
      assert e[..|x|] == x && e[|x|..] == EncodeRRs(rs[1..]);
      assert msg[p..p + |x|] == msg[p..][..|x|];
      assert msg[p + |x|..] == msg[p..][|x|..];
      RecordReads(msg, p, rs[0]);
      var (owner, q) := ReadLabels(msg, p, |msg|).value;
      SkipIsRead(msg, p, |msg|);
      OptFound(msg, p + |x|, rs[1..]);
      assert forall i | 0 < i < |rs| :: rs[i] == rs[1..][i - 1];
      assert forall i | 0 <= i < |rs| - 1 :: rs[1..][i] == rs[i + 1];
    }
  }

  function WriteQuery(id: nat, flags: nat, ls: seq<Bytes>, qtype: nat, qclass: nat,
                      an: seq<RR>, au: seq<RR>, ad: seq<RR>): Bytes
    requires id < 65536 && flags < 65536 && AllLabels(ls) && qtype < 65536 && qclass < 65536
    requires |an| < 65536 && |au| < 65536 && |ad| < 65536 && AllSound(an + au + ad)
  {
    Six(id, flags, 1, |an|, |au|, |ad|) + Question(ls, qtype, qclass) + EncodeRRs(an + au + ad)
  }

  /** parseQuery inverts the writer for up to 64 labels, whatever records follow the question:
      the fields come back, the question verbatim, and the OPT exactly when one was written. */
  lemma WrittenQueryParses(id: nat, flags: nat, ls: seq<Bytes>, qtype: nat, qclass: nat,
                           an: seq<RR>, au: seq<RR>, ad: seq<RR>)
    requires id < 65536 && flags < 0x8000 && AllLabels(ls) && |ls| <= MAX_LABELS && qtype < 65536 && qclass < 65536
    requires |an| < 65536 && |au| < 65536 && |ad| < 65536 && AllSound(an + au + ad)
    ensures ParseQuery(WriteQuery(id, flags, ls, qtype, qclass, an, au, ad))
            == Some(Query(id, Opcode(flags), Recursion(flags), Lower(Join(ls)), qtype, qclass,
                          Question(ls, qtype, qclass), OptAmong(an + au + ad)))
  {
    hide *;
    var all := an + au + ad;
    assert |all| == |an| + |au| + |ad|;
    var h, q, rs := Six(id, flags, 1, |an|, |au|, |ad|), Question(ls, qtype, qclass), EncodeRRs(all);
    var msg := h + q + rs;
    assert WriteQuery(id, flags, ls, qtype, qclass, an, au, ad) == msg by { Unfolded(id, flags, ls, qtype, qclass, an, au, ad); }
    assert msg[..12] == h && msg[12..12 + |q|] == q && msg[12 + |q|..] == rs;
    SixReads(msg, id, flags, 1, |an|, |au|, |ad|);
    QuestionReads(msg, ls, qtype, qclass);
    OptFound(msg, 12 + |q|, all);
    ParsesParts(msg, flags, ls, q, |all|);
  }

  lemma Unfolded(id: nat, flags: nat, ls: seq<Bytes>, qtype: nat, qclass: nat, an: seq<RR>, au: seq<RR>, ad: seq<RR>)
    requires id < 65536 && flags < 65536 && AllLabels(ls) && qtype < 65536 && qclass < 65536
    requires |an| < 65536 && |au| < 65536 && |ad| < 65536 && AllSound(an + au + ad)
    ensures WriteQuery(id, flags, ls, qtype, qclass, an, au, ad)
            == Six(id, flags, 1, |an|, |au|, |ad|) + Question(ls, qtype, qclass) + EncodeRRs(an + au + ad)
  {
    hide Six, Question, EncodeRRs, AllSound, AllLabels;
  }

  lemma ParsesParts(msg: Bytes, flags: nat, ls: seq<Bytes>, q: Bytes, n: nat)
    requires |q| >= 4 && 12 + |q| <= |msg| && msg[12..12 + |q|] == q && flags < 0x8000
    requires Get16(msg, 6) + Get16(msg, 8) + Get16(msg, 10) == n
    requires Get16(msg, 2) == flags && Get16(msg, 4) == 1 && ReadLabels(msg, 12, MAX_LABELS) == Some((ls, 8 + |q|))
    ensures ParseQuery(msg) == Some(Query(Get16(msg, 0), Opcode(flags), Recursion(flags), Lower(Join(ls)),
                                          Get16(msg, 8 + |q|), Get16(msg, 10 + |q|), q,
                                          HasOpt(msg, 12 + |q|, n)))
  {
    hide ReadLabels, Get16, HasOpt, Lower, Join, Opcode, Recursion;
  }

  lemma QuestionParts(ls: seq<Bytes>, qtype: nat, qclass: nat)
    requires AllLabels(ls) && qtype < 65536 && qclass < 65536
    ensures var q, n := Question(ls, qtype, qclass), |EncodeLabels(ls)|;
            && |q| == n + 4 && q[..n] == EncodeLabels(ls) && q[n..n + 2] == U16(qtype) && q[n + 2..] == U16(qclass)
  {
    hide EncodeLabels, U16, AllLabels;
  }

  lemma QuestionReads(msg: Bytes, ls: seq<Bytes>, qtype: nat, qclass: nat)
    requires AllLabels(ls) && |ls| <= MAX_LABELS && qtype < 65536 && qclass < 65536
    requires 12 + |Question(ls, qtype, qclass)| <= |msg|
    requires msg[12..12 + |Question(ls, qtype, qclass)|] == Question(ls, qtype, qclass)
    ensures var off := 12 + |Question(ls, qtype, qclass)|;
            ReadLabels(msg, 12, MAX_LABELS) == Some((ls, off - 4)) && Get16(msg, off - 4) == qtype && Get16(msg, off - 2) == qclass
  {
    hide EncodeLabels, ReadLabels, Get16, U16;
    var q, name := Question(ls, qtype, qclass), EncodeLabels(ls);
    var off := 12 + |name|;
    QuestionParts(ls, qtype, qclass);
    hide AllLabels, Question;
    SubSlice(msg, 12, 12 + |q|, 0, |name|);
    SubSlice(msg, 12, 12 + |q|, |name|, |name| + 2);
    SubSlice(msg, 12, 12 + |q|, |name| + 2, |q|);
    LabelsRead(msg, 12, MAX_LABELS, ls);
    Got16(msg, off, qtype);
    Got16(msg, off + 2, qclass);
  }

  /** And conversely: an accepted query asks one question of at most 64 plain labels. */
  lemma ParsedQuestion(msg: Bytes) returns (ls: seq<Bytes>)
    requires ParseQuery(msg).Some?
    ensures var q := ParseQuery(msg).value;
            && AllLabels(ls) && |ls| <= MAX_LABELS && q.qtype < 65536 && q.qclass < 65536
            && q.questionRaw == Question(ls, q.qtype, q.qclass) && q.questionRaw <= msg[12..]
            && q.qname == Lower(Join(ls)) && AllLabels(Split(q.qname))
  {
    hide ReadLabels, EncodeLabels, HasOpt, Lower, Join, Split, U16, Get16;
    ls := ReadLabels(msg, 12, MAX_LABELS).value.0;
    var off := ReadLabels(msg, 12, MAX_LABELS).value.1;
    ReadIsLabels(msg, 12, MAX_LABELS);
    QnameEncodes(ls);
    assert msg[12..off + 4] == msg[12..off] + msg[off..off + 2] + msg[off + 2..off + 4];
    Is16(msg, off);
    Is16(msg, off + 2);
  }

  // --- replies -----------------------------------------------------------------------------------

  datatype Resp = Resp(rcode: nat, aa: bool, an: seq<RR>, au: seq<RR>, ad: seq<RR>)

  const OPT_RR := RR([], OPT, UDP_MAX, 0, [])

  function Flags(q: Query, r: Resp, tc: bool): (n: nat)
    ensures 0x8000 <= n < 65536 && (n / 512 % 2 == 1 <==> tc)
  {
    var high, low := 32 + (q.opcode % 16) * 2 + (if r.aa then 1 else 0), (if q.rd then 256 else 0) + r.rcode % 16;
    MiddleBit(high, low, tc);
    high * 1024 + (if tc then 512 else 0) + low
  }

  lemma MiddleBit(high: nat, low: nat, bit: bool)
    requires 32 <= high < 64 && low < 512
    ensures var n := high * 1024 + (if bit then 512 else 0) + low;
            0x8000 <= n < 65536 && (n / 512 % 2 == 1 <==> bit)
  {
    var n := high * 1024 + (if bit then 512 else 0) + low;
    assert n == 512 * (2 * high + if bit then 1 else 0) + low;
    assert n / 512 == 2 * high + if bit then 1 else 0;
  }

  predicate SoundResp(r: Resp) {
    && AllSound(r.an) && AllSound(r.au) && AllSound(r.ad)
    && |r.an| < 65536 && |r.au| < 65536 && |r.ad| < 65535
  }

  function Additional(q: Query, r: Resp): seq<RR> { if q.hadOpt then r.ad + [OPT_RR] else r.ad }

  function Kept(q: Query): seq<RR> { if q.hadOpt then [OPT_RR] else [] }

  function Full(q: Query, r: Resp): Bytes
    requires SoundResp(r) && q.id < 65536
  {
    Six(q.id, Flags(q, r, false), 1, |r.an|, |r.au|, |Additional(q, r)|) + q.questionRaw
    + (EncodeRRs(r.an) + EncodeRRs(r.au) + EncodeRRs(Additional(q, r)))
  }

  function Truncated(q: Query, r: Resp): Bytes
    requires q.id < 65536
  {
    Six(q.id, Flags(q, r, true), 1, 0, 0, |Kept(q)|) + q.questionRaw + EncodeRRs(Kept(q))
  }

  /** buildResponse; a `limit` of 0 is TCP. */
  function BuildResponse(q: Query, r: Resp, limit: nat): Bytes
    requires SoundResp(r) && q.id < 65536
  {
    if limit == 0 || |Full(q, r)| <= limit then Full(q, r) else Truncated(q, r)
  }

  function Shown(q: Query, r: Resp, limit: nat): seq<RR>
    requires SoundResp(r) && q.id < 65536
  {
    if limit == 0 || |Full(q, r)| <= limit then r.an + r.au + Additional(q, r) else Kept(q)
  }

  lemma AssembledReads(h: Bytes, question: Bytes, rs: seq<RR>, id: nat, flags: nat, an: nat, au: nat, ad: nat)
    requires id < 65536 && flags < 65536 && an < 65536 && au < 65536 && ad < 65536
    requires h == Six(id, flags, 1, an, au, ad) && AllSound(rs) && |rs| == an + au + ad
    ensures var m := h + question + EncodeRRs(rs);
            && Get16(m, 0) == id && Get16(m, 2) == flags && Get16(m, 4) == 1
            && Get16(m, 6) == an && Get16(m, 8) == au && Get16(m, 10) == ad
            && m[12..12 + |question|] == question
            && ReadRRs(m, 12 + |question|, |rs|) == Some((rs, |m|))
  {
    hide Six, EncodeRRs, ReadRRs, Get16;
    var m := h + question + EncodeRRs(rs);
    assert m[..12] == h && m[12 + |question|..|m|] == EncodeRRs(rs);
    SixReads(m, id, flags, 1, an, au, ad);
    RecordsRead(m, 12 + |question|, rs);
  }

  /** Every reply is well formed: it echoes the id and the question, reading exactly the
      counted records gives back exactly the records chosen and ends on the last byte, and
      TC is set exactly when some were dropped for the limit. */
  lemma ReplyReads(q: Query, r: Resp, limit: nat)
    requires SoundResp(r) && q.id < 65536
    ensures var m := BuildResponse(q, r, limit);
            var off := 12 + |q.questionRaw|;
            && off <= |m| && Get16(m, 0) == q.id && Get16(m, 4) == 1 && m[12..off] == q.questionRaw
            && ReadRRs(m, off, Counts(m)) == Some((Shown(q, r, limit), |m|))
            && (Get16(m, 2) / 512 % 2 == 1 <==> limit != 0 && |Full(q, r)| > limit)
            && (Get16(m, 2) / 512 % 2 == 0 ==> Get16(m, 6) == |r.an| && Get16(m, 8) == |r.au|)
  {
    hide Six, EncodeRRs, ReadRRs, Get16, EncodeRR;
    if limit == 0 || |Full(q, r)| <= limit {
      var ad := Additional(q, r);
      assert Sound(OPT_RR);
      RRsConcat(r.an, r.au);
      RRsConcat(r.an + r.au, ad);
      AssembledReads(Six(q.id, Flags(q, r, false), 1, |r.an|, |r.au|, |ad|), q.questionRaw, r.an + r.au + ad,
                     q.id, Flags(q, r, false), |r.an|, |r.au|, |ad|);
    } else {
      AssembledReads(Six(q.id, Flags(q, r, true), 1, 0, 0, |Kept(q)|), q.questionRaw, Kept(q),
                     q.id, Flags(q, r, true), 0, 0, |Kept(q)|);
    }
  }

  lemma OptSize()
    ensures EncodeRRs([OPT_RR]) == EncodeRR(OPT_RR) && |EncodeRR(OPT_RR)| == 11
  {
    assert [OPT_RR][1..] == [];
    assert EncodeLabels([]) == [0];
  }

  /** A UDP reply fits its limit exactly when the bare question, and the OPT record it is
      owed, does; at 1232 bytes a name within DNS's own 255 always fits. */
  lemma UdpFitsExactly(q: Query, r: Resp, limit: nat)
    requires SoundResp(r) && q.id < 65536 && limit > 0
    ensures |BuildResponse(q, r, limit)| <= limit
            <==> 12 + |q.questionRaw| + (if q.hadOpt then 11 else 0) <= limit
    ensures limit == UDP_MAX && |q.questionRaw| <= 255 + 4 ==> |BuildResponse(q, r, limit)| <= limit
  {
    OptSize();
    RRsConcat(r.an, r.au);
    RRsConcat(r.an + r.au, Additional(q, r));
    RRsConcat(r.ad, [OPT_RR]);
    hide EncodeRR, EncodeRRs, Six;
  }

  lemma {:induction false} UniformSize(ls: seq<Bytes>)
    requires forall i | 0 <= i < |ls| :: |ls[i]| == 63
    ensures |EncodeLabels(ls)| == 64 * |ls| + 1
  {
    if ls != [] { UniformSize(ls[1..]); }
  }

  /** The parser takes names far past 255 bytes, and their UDP replies do not fit. */
  lemma LongNameOverflowsUdp(r: Resp)
    requires SoundResp(r)
    ensures exists msg: Bytes :: ParseQuery(msg).Some? && |BuildResponse(ParseQuery(msg).value, r, UDP_MAX)| > UDP_MAX
  {
    var ls: seq<Bytes> := seq(MAX_LABELS, i => seq(63, j => 97));
    UniformSize(ls);
    assert AllSound([] + [] + []);
    WrittenQueryParses(0, 0, ls, 1, 1, [], [], []);
    hide EncodeLabels, ParseQuery, EncodeRRs, Six, EncodeRR;
    var msg := WriteQuery(0, 0, ls, 1, 1, [], [], []);
    var q := ParseQuery(msg).value;
    UdpFitsExactly(q, r, UDP_MAX);
    assert |Full(q, r)| >= |q.questionRaw| > UDP_MAX;
  }
}
