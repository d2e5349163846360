/** The DNS message format as relay/dns-relay.js writes and reads it (RFC 1035, section 4.1).
    Latin-1 text is modelled as its bytes. */
module DnsWire {
  import opened Common

  const DOT: byte := 46
  const OPT := 41
  const UDP_MAX := 1232
  const MAX_LABELS := 64

  function U32(n: nat): (r: Bytes)
    requires n < 0x1_0000_0000
    ensures |r| == 4
  {
    U16(n / 65536) + U16(n % 65536)
  }

  // --- names ------------------------------------------------------------------------------

  predicate Label(l: Bytes) { 1 <= |l| <= 63 }

  predicate AllLabels(ls: seq<Bytes>) { forall i | 0 <= i < |ls| :: Label(ls[i]) }

  function EncodeLabels(ls: seq<Bytes>): (r: Bytes)
    requires AllLabels(ls)
    ensures |r| >= 1
  {
    if ls == [] then [0] else [|ls[0]|] + ls[0] + EncodeLabels(ls[1..])
  }

  /** The text before the first dot, as a length. */
  function FirstDot(name: Bytes): (k: nat)
    ensures k <= |name| && (forall i | 0 <= i < k :: name[i] != DOT) && (k < |name| ==> name[k] == DOT)
  {
    if name == [] || name[0] == DOT then 0 else
      1 + FirstDot(name[1..])
  }

  function OneUnlessEmpty(l: Bytes): seq<Bytes> { if l == [] then [] else [l] }

  /** `name.split(".").filter(Boolean)` */
  function Split(name: Bytes): seq<Bytes>
    decreases |name|
  {
    var k := FirstDot(name);
    OneUnlessEmpty(name[..k]) + if k < |name| then Split(name[k + 1..]) else []
  }

  /** `labels.join(".")` */
  function Join(ls: seq<Bytes>): Bytes {
    if ls == [] then [] else if |ls| == 1 then ls[0] else ls[0] + [DOT] + Join(ls[1..])
  }

  /** toLowerCase over Latin-1. */
  function LowerByte(b: byte): byte { if 65 <= b <= 90 || (192 <= b <= 222 && b != 215) then b + 32 else b }

  function Lower(s: Bytes): (r: Bytes)
    ensures |r| == |s|
  {
    seq(|s|, i requires 0 <= i < |s| => LowerByte(s[i]))
  }

  lemma {:induction false} SplitAtDot(a: Bytes, b: Bytes)
    ensures Split(a + [DOT] + b) == Split(a) + Split(b)
    decreases |a|
  {
    hide FirstDot;
    var name := a + [DOT] + b;
    var k := FirstDot(a);
    assert forall i | 0 <= i < |a| :: name[i] == a[i];
    FirstDotIs(name, k);
    assert name[..k] == a[..k];
    if k < |a| {
      assert name[k + 1..] == a[k + 1..] + [DOT] + b;
      SplitAtDot(a[k + 1..], b);
    } else {
      assert name[k + 1..] == b;
    }
  }

  lemma FirstDotIs(name: Bytes, k: nat)
    requires k < |name| && name[k] == DOT && forall i | 0 <= i < k :: name[i] != DOT
    ensures FirstDot(name) == k
  {}

  lemma {:induction false} SplitShort(name: Bytes)
    requires |name| <= 63
    ensures AllLabels(Split(name))
    decreases |name|
  {
    var k := FirstDot(name);
    if k < |name| { SplitShort(name[k + 1..]); }
  }

  lemma {:induction false} SplitSize(name: Bytes)
    requires AllLabels(Split(name))
    ensures |EncodeLabels(Split(name))| <= |name| + 2
    decreases |name|
  {
    var k := FirstDot(name);
    var head, rest := name[..k], if k < |name| then Split(name[k + 1..]) else [];
    assert Split(name) == OneUnlessEmpty(head) + rest;
    if k > 0 {
      assert Split(name)[0] == head && Split(name)[1..] == rest;
      assert forall i | 0 <= i < |rest| :: rest[i] == Split(name)[i + 1];
    } else {
      assert Split(name) == rest;
    }
    if k < |name| { SplitSize(name[k + 1..]); }
  }

  lemma LowerParts(a: Bytes, b: Bytes)
    ensures Lower(a + [DOT] + b) == Lower(a) + [DOT] + Lower(b)
  {}

  /** The name of a parsed question always encodes again, dots inside labels included. */
  lemma {:induction false} QnameEncodes(ls: seq<Bytes>)
    requires AllLabels(ls)
    ensures AllLabels(Split(Lower(Join(ls)))) && |Join(ls)| + 2 <= |EncodeLabels(ls)| + if ls == [] then 1 else 0
  {
    if |ls| == 1 {
      SplitShort(Lower(ls[0]));
      assert ls[1..] == [];
    } else if |ls| > 1 {
      LowerParts(ls[0], Join(ls[1..]));
      SplitAtDot(Lower(ls[0]), Lower(Join(ls[1..])));
      SplitShort(Lower(ls[0]));
      QnameEncodes(ls[1..]);
    }
  }

  function LowerAll(ls: seq<Bytes>): (r: seq<Bytes>)
    ensures |r| == |ls| && forall i | 0 <= i < |ls| :: r[i] == Lower(ls[i])
  {
    if ls == [] then [] else [Lower(ls[0])] + LowerAll(ls[1..])
  }

  lemma DotFreeStaysOne(l: Bytes)
    requires l != [] && DOT !in l
    ensures Split(Lower(l)) == [Lower(l)]
  {
    var s := Lower(l);
    var k := FirstDot(s);
    assert forall i | 0 <= i < |l| :: l[i] in l && s[i] == LowerByte(l[i]);
    assert s[..|s|] == s;
  }

  /** And a dot-free question name splits back into its own labels, lower-cased. */
  lemma {:induction false} QnameSplits(ls: seq<Bytes>)
    requires AllLabels(ls) && forall i | 0 <= i < |ls| :: DOT !in ls[i]
    ensures Split(Lower(Join(ls))) == LowerAll(ls)
  {
    if ls != [] { DotFreeStaysOne(ls[0]); }
    if |ls| == 1 {
      assert LowerAll(ls) == [Lower(ls[0])] + LowerAll([]);
    } else if |ls| > 1 {
      LowerParts(ls[0], Join(ls[1..]));
      SplitAtDot(Lower(ls[0]), Lower(Join(ls[1..])));
      QnameSplits(ls[1..]);
    } else {
      assert Split([]) == [];
    }
  }

  /** Plain labels up to the root; at most `room` of them, no compression. */
  function ReadLabels(msg: Bytes, off: nat, room: nat): (r: Option<(seq<Bytes>, nat)>)
    ensures r.Some? ==> off < r.value.1 <= |msg|
    decreases |msg| - off
  {
    if off >= |msg| then None
    else
      var len := msg[off];
      if len == 0 then Some(([], off + 1))
      else if len >= 64 then None
      else if off + 1 + len > |msg| || room == 0 then None
      else match ReadLabels(msg, off + 1 + len, room - 1)
        case None => None
        case Some((ls, end)) => Some(([msg[off + 1..off + 1 + len]] + ls, end))
  }

  lemma {:induction false} LabelsRead(msg: Bytes, off: nat, room: nat, ls: seq<Bytes>)
    requires AllLabels(ls) && |ls| <= room && off + |EncodeLabels(ls)| <= |msg|
    requires msg[off..off + |EncodeLabels(ls)|] == EncodeLabels(ls)
    ensures ReadLabels(msg, off, room) == Some((ls, off + |EncodeLabels(ls)|))
    decreases |ls|
  {
    var e := EncodeLabels(ls);
    assert msg[off] == msg[off..off + |e|][0];
    if ls != [] {
      var next := off + 1 + |ls[0]|;
      assert e[1..1 + |ls[0]|] == ls[0] && e[1 + |ls[0]|..] == EncodeLabels(ls[1..]);
      assert msg[off + 1..next] == msg[off..off + |e|][1..1 + |ls[0]|];
      assert msg[next..off + |e|] == msg[off..off + |e|][1 + |ls[0]|..];
      LabelsRead(msg, next, room - 1, ls[1..]);
      assert [ls[0]] + ls[1..] == ls;
    }
  }

  lemma {:induction false} ReadIsLabels(msg: Bytes, off: nat, room: nat)
    requires ReadLabels(msg, off, room).Some?
    ensures var (ls, end) := ReadLabels(msg, off, room).value;
            AllLabels(ls) && |ls| <= room && msg[off..end] == EncodeLabels(ls)
    decreases |msg| - off
  {
    var len := msg[off];
    if len != 0 {
      var next := off + 1 + len;
      var (rest, end) := ReadLabels(msg, next, room - 1).value;
      ReadIsLabels(msg, next, room - 1);
      var ls := [msg[off + 1..next]] + rest;
      assert ls[1..] == rest;
      assert msg[off..end] == [len] + msg[off + 1..next] + msg[next..end];
    }
  }

  // --- resource records ---------------------------------------------------------------------

  /** A record, its owner name split into labels. */
  datatype RR = RR(owner: seq<Bytes>, typ: nat, cls: nat, ttl: nat, rdata: Bytes)

  predicate Sound(r: RR) {
    AllLabels(r.owner) && r.typ < 65536 && r.cls < 65536 && r.ttl < 0x1_0000_0000 && |r.rdata| < 65536
  }

  function Fixed(r: RR): (b: Bytes)
    requires Sound(r)
    ensures |b| == 10
  {
    U16(r.typ) + U16(r.cls) + U32(r.ttl) + U16(|r.rdata|)
  }

  function EncodeRR(r: RR): Bytes
    requires Sound(r)
  {
    EncodeLabels(r.owner) + Fixed(r) + r.rdata
  }

  predicate AllSound(rs: seq<RR>) { forall i | 0 <= i < |rs| :: Sound(rs[i]) }

  function EncodeRRs(rs: seq<RR>): Bytes
    requires AllSound(rs)
  {
    if rs == [] then [] else EncodeRR(rs[0]) + EncodeRRs(rs[1..])
  }

  /** A reader that takes a record only when all of it is there. */
  function ReadRR(msg: Bytes, off: nat): (r: Option<(RR, nat)>)
    ensures r.Some? ==> off < r.value.1 <= |msg|
  {
    match ReadLabels(msg, off, |msg|)
    case None => None
    case Some((owner, p)) =>
      if p + 10 > |msg| || p + 10 + Get16(msg, p + 8) > |msg| then None
      else
        var end := p + 10 + Get16(msg, p + 8);
        Some((RR(owner, Get16(msg, p), Get16(msg, p + 2), Get16(msg, p + 4) * 65536 + Get16(msg, p + 6),
                 msg[p + 10..end]), end))
  }

  /** Read exactly `n` records. */
  function ReadRRs(msg: Bytes, off: nat, n: nat): Option<(seq<RR>, nat)>
    decreases n
  {
    if n == 0 then Some(([], off))
    else match ReadRR(msg, off)
      case None => None
      case Some((r, next)) =>
        match ReadRRs(msg, next, n - 1)
        case None => None
        case Some((rs, end)) => Some(([r] + rs, end))
  }

  lemma FixedReads(msg: Bytes, p: nat, r: RR)
    requires Sound(r) && p + 10 <= |msg| && msg[p..p + 10] == Fixed(r)
    ensures Get16(msg, p) == r.typ && Get16(msg, p + 2) == r.cls
    ensures Get16(msg, p + 4) * 65536 + Get16(msg, p + 6) == r.ttl && Get16(msg, p + 8) == |r.rdata|
  {
    hide U16, Get16, U32;
    var f := Fixed(r);
    Pieces(msg, p, f, r);
    Got16(msg, p, r.typ);
    Got16(msg, p + 2, r.cls);
    Got16(msg, p + 4, r.ttl / 65536);
    Got16(msg, p + 6, r.ttl % 65536);
    Got16(msg, p + 8, |r.rdata|);
  }

  lemma Pieces(msg: Bytes, p: nat, f: Bytes, r: RR)
    requires Sound(r) && p + 10 <= |msg| && msg[p..p + 10] == f == Fixed(r)
    ensures msg[p..p + 2] == U16(r.typ) && msg[p + 2..p + 4] == U16(r.cls)
    ensures msg[p + 4..p + 6] == U16(r.ttl / 65536) && msg[p + 6..p + 8] == U16(r.ttl % 65536)
    ensures msg[p + 8..p + 10] == U16(|r.rdata|)
  {
    hide U16;
    assert f[..2] == U16(r.typ) && f[2..4] == U16(r.cls);
    assert f[4..6] == U16(r.ttl / 65536) && f[6..8] == U16(r.ttl % 65536);
    assert f[8..10] == U16(|r.rdata|);
    SubSlice(msg, p, p + 10, 0, 2);
    SubSlice(msg, p, p + 10, 2, 4);
    SubSlice(msg, p, p + 10, 4, 6);
    SubSlice(msg, p, p + 10, 6, 8);
    SubSlice(msg, p, p + 10, 8, 10);
  }

  lemma {:induction false} OwnerSize(ls: seq<Bytes>)
    requires AllLabels(ls)
    ensures |ls| < |EncodeLabels(ls)|
  {
    if ls != [] { OwnerSize(ls[1..]); }
  }

  /** What the writer puts down, the reader takes back. */
  lemma RecordReads(msg: Bytes, off: nat, r: RR)
    requires Sound(r) && off + |EncodeRR(r)| <= |msg| && msg[off..off + |EncodeRR(r)|] == EncodeRR(r)
    ensures ReadRR(msg, off) == Some((r, off + |EncodeRR(r)|))
  {
    hide EncodeLabels, ReadLabels, Fixed, Get16;
    var e, name := EncodeRR(r), EncodeLabels(r.owner);
    var p := off + |name|;
    OwnerSize(r.owner);
    assert e[..|name|] == name && e[|name|..|name| + 10] == Fixed(r) && e[|name| + 10..] == r.rdata;
    assert msg[off..p] == msg[off..off + |e|][..|name|];
    assert msg[p..p + 10] == msg[off..off + |e|][|name|..|name| + 10];
    assert msg[p + 10..off + |e|] == msg[off..off + |e|][|name| + 10..];
    LabelsRead(msg, off, |msg|, r.owner);
    FixedReads(msg, p, r);
  }

  lemma {:induction false} RecordsRead(msg: Bytes, off: nat, rs: seq<RR>)
    requires AllSound(rs) && off + |EncodeRRs(rs)| <= |msg| && msg[off..off + |EncodeRRs(rs)|] == EncodeRRs(rs)
    ensures ReadRRs(msg, off, |rs|) == Some((rs, off + |EncodeRRs(rs)|))
    decreases |rs|
  {
    hide EncodeRR, ReadRR, Sound;
    if rs != [] {
      var e, x := EncodeRRs(rs), EncodeRR(rs[0]);
      assert e[..|x|] == x && e[|x|..] == EncodeRRs(rs[1..]);
      assert msg[off..off + |x|] == msg[off..off + |e|][..|x|];
      assert msg[off + |x|..off + |e|] == msg[off..off + |e|][|x|..];
      RecordReads(msg, off, rs[0]);
      RecordsRead(msg, off + |x|, rs[1..]);
      assert [rs[0]] + rs[1..] == rs;
    }
  }

  lemma {:induction false} RRsConcat(a: seq<RR>, b: seq<RR>)
    requires AllSound(a) && AllSound(b)
    ensures AllSound(a + b) && EncodeRRs(a + b) == EncodeRRs(a) + EncodeRRs(b)
  {
    hide EncodeRR, Sound;
    if a == [] {
      assert a + b == b;
    } else {
      assert (a + b)[1..] == a[1..] + b && (a + b)[0] == a[0];
      RRsConcat(a[1..], b);
    }
  }
}
