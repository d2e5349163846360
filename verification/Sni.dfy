/** The SNI relay's first look at a connection (relay/relay.js, sniFromClientHello and the
    buffering loop of handle): TLS ClientHello, RFC 8446 section 4.1.2, with the server_name
    extension of RFC 6066 section 3. */
module Sni {
  import opened Common

  /** `null`: more bytes are needed; `false`: refuse; otherwise the host name. */
  datatype Verdict = More | Refuse | Name(host: string)

  const MAX_RECORD := 18432

  /** The extensions from `o` on; an extension may end anywhere, the block at `end`. */
  function FromExtensions(d: Bytes, o: nat, end: nat): (r: Verdict)
    ensures !r.More?
    decreases |d| - o
  {
    if o + 4 > end || o + 4 > |d| then Refuse
    else if Get16(d, o) == 0 then FromServerName(d, o + 6)
    else FromExtensions(d, o + 4 + Get16(d, o + 2), end)
  }

  /** The first entry of the name list; a length past the record is cut at its end. */
  function FromServerName(d: Bytes, p: nat): (r: Verdict)
    ensures !r.More?
  {
    if p >= |d| || d[p] != 0 || p + 3 > |d| then Refuse
    else
      var end := p + 3 + Get16(d, p + 1);
      Name(AsciiLower(d[p + 3..if end < |d| then end else |d|]))
  }

  function FromBlock(d: Bytes, o: nat): (r: Verdict)
    ensures !r.More?
  {
    if o + 2 > |d| then Refuse else FromExtensions(d, o + 2, o + 2 + Get16(d, o))
  }

  function FromCompression(d: Bytes, o: nat): (r: Verdict)
    ensures !r.More?
  {
    if o >= |d| then Refuse else FromBlock(d, o + 1 + d[o] as int)
  }

  function FromSuites(d: Bytes, o: nat): (r: Verdict)
    ensures !r.More?
  {
    if o + 2 > |d| then Refuse else FromCompression(d, o + 2 + Get16(d, o))
  }

  function FromSession(d: Bytes, o: nat): (r: Verdict)
    ensures !r.More?
  {
    if o >= |d| then Refuse else FromSuites(d, o + 1 + d[o] as int)
  }

  /** Past the session id, the cipher suites and the compression methods, each behind its
      own length; reading beyond the record throws, and that refuses. */
  function FromHello(d: Bytes): (r: Verdict)
    ensures !r.More?
  {
    if d == [] || d[0] != 1 then Refuse else FromSession(d, 38)
  }

  function FromClientHello(buf: Bytes): Verdict {
    if |buf| < 5 then More
    else if buf[0] != 0x16 then Refuse
    else
      var recLen := Get16(buf, 3);
      if recLen > MAX_RECORD then Refuse
      else if |buf| < 5 + recLen then More
      else FromHello(buf[5..5 + recLen])
  }

  /** sniFromClientHello as the source walks it: one cursor over the record. */
  method SniFromClientHello(buf: Bytes) returns (r: Verdict)
    ensures r == FromClientHello(buf)
  {
    if |buf| < 5 { return More; }
    if buf[0] != 0x16 { return Refuse; }
    var recLen := Get16(buf, 3);
    if recLen > MAX_RECORD { return Refuse; }
    if |buf| < 5 + recLen { return More; }
    var d := buf[5..5 + recLen];
    r := HelloLoop(d);
  }

  method HelloLoop(d: Bytes) returns (r: Verdict)
    ensures r == FromHello(d)
  {
    hide AsciiLower, Get16;
    if d == [] || d[0] != 1 { return Refuse; }
    var o: nat := 1 + 3 + 2 + 32;
    if o >= |d| { return Refuse; }
    o := o + 1 + d[o] as int;
    if o + 2 > |d| { return Refuse; }
    o := o + 2 + Get16(d, o);
    if o >= |d| { return Refuse; }
    o := o + 1 + d[o] as int;
    if o + 2 > |d| { return Refuse; }
    var extEnd := o + 2 + Get16(d, o);
    o := o + 2;
    while o + 4 <= extEnd && o + 4 <= |d|
      invariant FromHello(d) == FromExtensions(d, o, extEnd)
      decreases |d| - o
    {
      var typ, len := Get16(d, o), Get16(d, o + 2);
      o := o + 4;
      if typ == 0 {
        var p := o + 2;
        if p >= |d| || d[p] != 0 { return Refuse; }
        if p + 3 > |d| { return Refuse; }
        var end := p + 3 + Get16(d, p + 1);
        return Name(AsciiLower(d[p + 3..if end < |d| then end else |d|]));
      }
      o := o + len;
    }
    return Refuse;
  }

  // --- the verdict does not depend on what follows ------------------------------------------------

  /** Once an answer is given, more bytes never change it. */
  lemma AnswersAreStable(a: Bytes, b: Bytes)
    requires FromClientHello(a) != More
    ensures FromClientHello(a + b) == FromClientHello(a)
  {
    assert Get16(a + b, 3) == Get16(a, 3);
    var recLen := Get16(a, 3);
    if a[0] == 0x16 && recLen <= MAX_RECORD {
      assert (a + b)[5..5 + recLen] == a[5..5 + recLen];
    }
  }

  /** It asks for more only below 18437 bytes, so the connection's own 20000-byte cut-off is
      never what ends it. */
  lemma WaitsOnlyBriefly(buf: Bytes)
    requires FromClientHello(buf).More?
    ensures |buf| < 5 + MAX_RECORD < 20000
  {}

  // --- a written ClientHello gives up its name ------------------------------------------------------

  datatype Ext = Ext(typ: nat, data: Bytes)

  predicate ExtOk(e: Ext) { e.typ < 65536 && |e.data| < 65536 }

  predicate AllExtOk(es: seq<Ext>) { forall i | 0 <= i < |es| :: ExtOk(es[i]) }

  function WriteExt(e: Ext): (r: Bytes)
    requires ExtOk(e)
    ensures |r| == 4 + |e.data|
  {
    U16(e.typ) + U16(|e.data|) + e.data
  }

  function WriteExts(es: seq<Ext>): Bytes
    requires AllExtOk(es)
  {
    if es == [] then [] else WriteExt(es[0]) + WriteExts(es[1..])
  }

  /** server_name with one host_name. */
  function ServerName(host: Bytes): (e: Ext)
    requires |host| + 5 < 65536
    ensures ExtOk(e)
  {
    Ext(0, U16(|host| + 3) + ([0] + U16(|host|) + host))
  }

  /** What comes before the extensions. */
  datatype Front = Front(version: Bytes, random: Bytes, session: Bytes, suites: Bytes, compression: Bytes)

  predicate FrontOk(f: Front) {
    |f.version| == 2 && |f.random| == 32 && |f.session| < 256 && |f.suites| < 65536 && |f.compression| < 256
  }

  function WriteHello(f: Front, length: Bytes, exts: Bytes): Bytes
    requires FrontOk(f) && |length| == 3 && |exts| < 65536
  {
    [1] + length + f.version + f.random
    + ([|f.session|] + f.session
       + (U16(|f.suites|) + f.suites
          + ([|f.compression|] + f.compression
             + (U16(|exts|) + exts))))
  }

  function WriteRecord(version: Bytes, d: Bytes): Bytes
    requires |version| == 2 && |d| < 65536
  {
    [0x16] + version + U16(|d|) + d
  }

  /** Taking one field off the front of what is left. */
  lemma Take(d: Bytes, o: nat, x: Bytes, rest: Bytes)
    requires o <= |d| && d[o..] == x + rest
    ensures o + |x| <= |d| && d[o..o + |x|] == x && d[o + |x|..] == rest
  {
    assert d[o..][..|x|] == x && d[o..][|x|..] == rest;
  }

  lemma TakeOne(d: Bytes, o: nat, n: byte, x: Bytes, rest: Bytes)
    requires o <= |d| && d[o..] == [n] + x + rest
    ensures o + 1 + |x| <= |d| && d[o] == n && d[o + 1 + |x|..] == rest
  {
    assert [n] + x + rest == [n] + (x + rest);
    Take(d, o, [n], x + rest);
    assert d[o] == d[o..o + 1][0];
    Take(d, o + 1, x, rest);
  }

  lemma TakeTwo(d: Bytes, o: nat, n: nat, x: Bytes, rest: Bytes)
    requires n < 65536 && o <= |d| && d[o..] == U16(n) + x + rest
    ensures o + 2 + |x| <= |d| && Get16(d, o) == n && d[o + 2 + |x|..] == rest
  {
    hide U16, Get16;
    assert U16(n) + x + rest == U16(n) + (x + rest);
    Take(d, o, U16(n), x + rest);
    Got16(d, o, n);
    Take(d, o + 2, x, rest);
  }

  lemma FieldsRead(d: Bytes, o: nat, s: Bytes, t: Bytes, u: Bytes, e: Bytes, r1: Bytes, r2: Bytes, r3: Bytes)
    requires |s| < 256 && |t| < 65536 && |u| < 256 && |e| < 65536 && o <= |d|
    requires d[o..] == [|s|] + s + r1 && r1 == U16(|t|) + t + r2 && r2 == [|u|] + u + r3 && r3 == U16(|e|) + e
    ensures var at := |d| - |e|;
            at >= 2 && d[at..] == e && FromSession(d, o) == FromExtensions(d, at, |d|)
  {
    hide *;
    SessionReads(d, o, s, r1);
    SuitesRead(d, o + 1 + |s|, t, u, e, r2, r3);
  }

  lemma SessionReads(d: Bytes, o: nat, s: Bytes, rest: Bytes)
    requires |s| < 256 && o <= |d| && d[o..] == [|s|] + s + rest
    ensures o + 1 + |s| <= |d| && d[o + 1 + |s|..] == rest && FromSession(d, o) == FromSuites(d, o + 1 + |s|)
  {
    hide *;
    var n := |s|;
    TakeOne(d, o, n, s, rest);
    SessionStep(d, o, n);
  }

  lemma SessionStep(d: Bytes, o: nat, n: nat)
    requires o < |d| && d[o] == n
    ensures FromSession(d, o) == FromSuites(d, o + 1 + n)
  {
    hide FromSuites;
  }

  lemma SuitesRead(d: Bytes, o: nat, t: Bytes, u: Bytes, e: Bytes, r2: Bytes, r3: Bytes)
    requires |t| < 65536 && |u| < 256 && |e| < 65536 && o <= |d|
    requires d[o..] == U16(|t|) + t + r2 && r2 == [|u|] + u + r3 && r3 == U16(|e|) + e
    ensures var at := |d| - |e|;
            at >= 2 && d[at..] == e && FromSuites(d, o) == FromExtensions(d, at, |d|)
  {
    hide U16, Get16, FromExtensions, FromCompression, FromBlock;
    TakeTwo(d, o, |t|, t, r2);
    CompressionReads(d, o + 2 + |t|, u, e, r3);
  }

  lemma CompressionReads(d: Bytes, o: nat, u: Bytes, e: Bytes, r3: Bytes)
    requires |u| < 256 && |e| < 65536 && o <= |d| && d[o..] == [|u|] + u + r3 && r3 == U16(|e|) + e
    ensures var at := |d| - |e|;
            at >= 2 && d[at..] == e && FromCompression(d, o) == FromExtensions(d, at, |d|)
  {
    hide U16, Get16, FromExtensions, FromBlock;
    TakeOne(d, o, |u|, u, r3);
    BlockReads(d, o + 1 + |u|, e);
  }

  lemma BlockReads(d: Bytes, o: nat, e: Bytes)
    requires |e| < 65536 && o <= |d| && d[o..] == U16(|e|) + e
    ensures |d| - |e| == o + 2 && d[o + 2..] == e && FromBlock(d, o) == FromExtensions(d, o + 2, |d|)
  {
    hide U16, Get16, FromExtensions;
    Take(d, o, U16(|e|), e);
    Got16(d, o, |e|);
  }

  lemma FrontReads(f: Front, length: Bytes, exts: Bytes)
    requires FrontOk(f) && |length| == 3 && 0 < |exts| < 65536
    ensures var d := WriteHello(f, length, exts);
            var o := |d| - |exts|;
            o >= 2 && d[o..] == exts && FromHello(d) == FromExtensions(d, o, |d|)
  {
    hide U16, FromExtensions, FromSession;
    var d := WriteHello(f, length, exts);
    var r3 := U16(|exts|) + exts;
    var r2 := [|f.compression|] + f.compression + r3;
    var r1 := U16(|f.suites|) + f.suites + r2;
    Prepended([1] + length + f.version + f.random, [|f.session|] + f.session + r1);
    FieldsRead(d, 38, f.session, f.suites, f.compression, exts, r1, r2, r3);
  }

  lemma Prepended(head: Bytes, rest: Bytes)
    requires |head| == 38
    ensures (head + rest)[0] == head[0] && (head + rest)[38..] == rest
  {}

  lemma ServerNameReads(d: Bytes, o: nat, host: Bytes, rest: Bytes)
    requires |host| + 5 < 65536 && o <= |d| && d[o..] == WriteExt(ServerName(host)) + rest
    ensures FromExtensions(d, o, |d|) == Name(AsciiLower(host))
  {
    hide U16, Get16, AsciiLower, FromExtensions;
    var entry := [0] + (U16(|host|) + (host + rest));
    assert WriteExt(ServerName(host)) + rest == U16(0) + U16(|host| + 5) + (U16(|host| + 3) + entry);
    TakeTwo(d, o, 0, U16(|host| + 5), U16(|host| + 3) + entry);
    Take(d, o + 4, U16(|host| + 3), entry);
    EntryReads(d, o, host, rest);
  }

  lemma EntryReads(d: Bytes, o: nat, host: Bytes, rest: Bytes)
    requires |host| < 65536 && o + 6 <= |d| && Get16(d, o) == 0
    requires d[o + 6..] == [0] + (U16(|host|) + (host + rest))
    ensures FromExtensions(d, o, |d|) == Name(AsciiLower(host))
  {
    hide U16, Get16, AsciiLower;
    Take(d, o + 6, [0], U16(|host|) + (host + rest));
    assert d[o + 6] == d[o + 6..o + 7][0];
    Take(d, o + 7, U16(|host|), host + rest);
    Got16(d, o + 7, |host|);
    Take(d, o + 9, host, rest);
  }

  lemma {:induction false} ExtensionsRead(d: Bytes, o: nat, before: seq<Ext>, host: Bytes, after: Bytes)
    requires AllExtOk(before) && (forall i | 0 <= i < |before| :: before[i].typ != 0)
    requires |host| + 5 < 65536 && o <= |d| && d[o..] == WriteExts(before) + (WriteExt(ServerName(host)) + after)
    ensures FromExtensions(d, o, |d|) == Name(AsciiLower(host))
    decreases |before|
  {
    hide U16, Get16, AsciiLower, ServerName;
    var tail := WriteExt(ServerName(host)) + after;
    if before == [] {
      assert WriteExts(before) + tail == tail;
      ServerNameReads(d, o, host, after);
    } else {
      var e, x, rest := before[0], d[o..], WriteExts(before[1..]) + tail;
      assert x == U16(e.typ) + (U16(|e.data|) + (e.data + rest));
      assert x[..2] == U16(e.typ) && x[2..4] == U16(|e.data|) && x[4 + |e.data|..] == rest;
      SubSlice(d, o, |d|, 0, 2);
      SubSlice(d, o, |d|, 2, 4);
      SubSlice(d, o, |d|, 4 + |e.data|, |x|);
      Got16(d, o, e.typ);
      Got16(d, o + 2, |e.data|);
      ExtensionsRead(d, o + 4 + |e.data|, before[1..], host, after);
    }
  }

  /** From any ClientHello in one record whose first server_name names a host, wherever it
      stands among the extensions and whatever follows the record, that name is read. */
  lemma WrittenNameIsRead(version: Bytes, f: Front, length: Bytes, before: seq<Ext>, host: Bytes, after: seq<Ext>, more: Bytes)
    requires |version| == 2 && FrontOk(f) && |length| == 3 && AllExtOk(before) && AllExtOk(after)
    requires (forall i | 0 <= i < |before| :: before[i].typ != 0) && |host| + 5 < 65536
    requires |WriteExts(before) + (WriteExt(ServerName(host)) + WriteExts(after))| < 65536
    requires |WriteHello(f, length, WriteExts(before) + (WriteExt(ServerName(host)) + WriteExts(after)))| <= 18432
    ensures var d := WriteHello(f, length, WriteExts(before) + (WriteExt(ServerName(host)) + WriteExts(after)));
            FromClientHello(WriteRecord(version, d) + more) == Name(AsciiLower(host))
  {
    hide WriteExt, WriteExts, WriteHello, FromExtensions, FromHello, AsciiLower;
    var exts := WriteExts(before) + (WriteExt(ServerName(host)) + WriteExts(after));
    var d := WriteHello(f, length, exts);
    FrontReads(f, length, exts);
    ExtensionsRead(d, |d| - |exts|, before, host, WriteExts(after));
    RecordReads(version, d, more);
  }

  lemma RecordReads(version: Bytes, d: Bytes, more: Bytes)
    requires |version| == 2 && |d| <= MAX_RECORD
    ensures FromClientHello(WriteRecord(version, d) + more) == FromHello(d)
  {
    hide U16, Get16, FromHello;
    var buf := WriteRecord(version, d) + more;
    assert buf[0] == 0x16 && buf[3..5] == U16(|d|) && buf[5..5 + |d|] == d;
    Got16(buf, 3, |d|);
  }

  // --- the connection: buffer, decide, hand over --------------------------------------------------

  /** What becomes of a connection whose first bytes these are. */
  datatype Outcome = Waits | Closed | Redirects(head: Bytes) | Routed(sni: Verdict, bytes: Bytes)

  const HEAD_LIMIT := 8192
  const HELLO_LIMIT := 20000
  const END_OF_HEAD: Bytes := [13, 10, 13, 10]

  /** `head.indexOf("\r\n\r\n")`, from `i` on. */
  function EndOfHead(buf: Bytes, i: nat): (r: Option<nat>)
    ensures r.Some? ==> i <= r.value && r.value + 4 <= |buf|
    decreases |buf| - i
  {
    if i + 4 > |buf| then None else if buf[i..i + 4] == END_OF_HEAD then Some(i) else EndOfHead(buf, i + 1)
  }

  predicate HeadEndsAt(buf: Bytes, k: nat) { k + 4 <= |buf| && buf[k..k + 4] == [13, 10, 13, 10] }

  /** The first blank line, and none only if there is none. */
  lemma {:induction false} EndOfHeadExactly(buf: Bytes, i: nat)
    ensures var r := EndOfHead(buf, i);
            && (r.Some? ==> HeadEndsAt(buf, r.value))
            && forall k | i <= k && (r.Some? ==> k < r.value) :: !HeadEndsAt(buf, k)
    decreases |buf| - i
  {
    if i + 4 <= |buf| && buf[i..i + 4] != END_OF_HEAD { EndOfHeadExactly(buf, i + 1); }
  }

  /** Plaintext where only TLS belongs is redirected; the port says whether. */
  predicate Plaintext(redirect: bool, buf: Bytes) { redirect && buf != [] && buf[0] != 0x16 }

  function React(redirect: bool, buf: Bytes): Outcome {
    if Plaintext(redirect, buf) then
      if |buf| > HEAD_LIMIT then Closed
      else match EndOfHead(buf, 0)
        case None => Waits
        case Some(end) => Redirects(buf[..end])
    else match FromClientHello(buf)
      case More => if |buf| > HELLO_LIMIT then Closed else Waits
      case v => Routed(v, buf)
  }

  /** Plaintext within the limit is redirected by its head once that is there, which ends at its
      first blank line, and waits until then; past the limit the connection is closed. */
  lemma PlaintextReacts(s: Bytes, k: nat)
    requires s != [] && s[0] != 0x16
    ensures |s| <= 8192 && HeadEndsAt(s, k) && (forall j | 0 <= j < k :: !HeadEndsAt(s, j)) ==> React(true, s) == Redirects(s[..k])
    ensures |s| <= 8192 && (forall j :: 0 <= j ==> !HeadEndsAt(s, j)) ==> React(true, s).Waits?
    ensures |s| > 8192 ==> React(true, s).Closed?
  {
    EndOfHeadExactly(s, 0);
    hide FromClientHello, EndOfHead;
  }

  function Play(redirect: bool, buf: Bytes, chunks: seq<Bytes>): Outcome
    decreases |chunks|
  {
    if chunks == [] then Waits
    else
      var o := React(redirect, buf + chunks[0]);
      if o.Waits? then Play(redirect, buf + chunks[0], chunks[1..]) else o
  }

  function Concat(chunks: seq<Bytes>): Bytes { if chunks == [] then [] else chunks[0] + Concat(chunks[1..]) }

  class Connection {
    const redirect: bool
    var buf: Bytes
    var outcome: Outcome

    constructor (redirect: bool)
      ensures this.redirect == redirect && buf == [] && outcome == Waits
    {
      this.redirect := redirect;
      buf, outcome := [], Waits;
    }

    /** onData, while still attached. */
    method OnData(chunk: Bytes)
      requires outcome.Waits?
      modifies this
      ensures buf == old(buf) + chunk && outcome == React(redirect, buf)
    {
      buf := buf + chunk;
      if redirect && buf != [] && buf[0] != 0x16 {
        if |buf| > HEAD_LIMIT {
          outcome := Closed;
          return;
        }
        var end := EndOfHead(buf, 0);
        if end.None? { return; }
        outcome := Redirects(buf[..end.value]);
        return;
      }
      var sni := SniFromClientHello(buf);
      if sni.More? {
        if |buf| > HELLO_LIMIT { outcome := Closed; }
        return;
      }
      outcome := Routed(sni, buf);
    }
  }

  lemma {:induction false} TlsFrom(redirect: bool, buf: Bytes, chunks: seq<Bytes>)
    requires FromClientHello(buf).More? && !Plaintext(redirect, buf + Concat(chunks))
    ensures var s, o := buf + Concat(chunks), Play(redirect, buf, chunks);
            if FromClientHello(s).More? then o.Waits?
            else o.Routed? && o.sni == FromClientHello(s) && o.bytes <= s
    decreases |chunks|
  {
    hide FromClientHello;
    var s := buf + Concat(chunks);
    if chunks == [] {
      assert s == buf;
    } else {
      var b, rest := buf + chunks[0], Concat(chunks[1..]);
      assert s == b + rest;
      assert b != [] ==> s[0] == b[0];
      if FromClientHello(b).More? {
        WaitsOnlyBriefly(b);
        TlsFrom(redirect, b, chunks[1..]);
      } else {
        AnswersAreStable(b, rest);
      }
    }
  }

  /** For TLS the decision is a function of the bytes alone: however they are cut, the
      connection waits exactly while the hello is incomplete, is never closed for its size,
      and is routed by the one verdict, nothing received so far being lost. */
  lemma TlsIgnoresChunking(redirect: bool, chunks: seq<Bytes>)
    requires !Plaintext(redirect, Concat(chunks))
    ensures var s, o := Concat(chunks), Play(redirect, [], chunks);
            if FromClientHello(s).More? then o.Waits?
            else o.Routed? && o.sni == FromClientHello(s) && o.bytes <= s
  {
    assert [] + Concat(chunks) == Concat(chunks);
    TlsFrom(redirect, [], chunks);
  }

  lemma {:induction false} EndStays(a: Bytes, b: Bytes, i: nat)
    ensures EndOfHead(a, i).Some? ==> EndOfHead(a + b, i) == EndOfHead(a, i)
    decreases |a| - i
  {
    if i + 4 <= |a| {
      assert (a + b)[i..i + 4] == a[i..i + 4];
      EndStays(a, b, i + 1);
    }
  }

  /** Longer than the redirector's limit, with a head that would have fitted. */
  predicate Ambiguous(s: Bytes) {
    |s| > HEAD_LIMIT && EndOfHead(s, 0).Some? && EndOfHead(s, 0).value + 4 <= HEAD_LIMIT
  }

  lemma {:induction false} PlaintextFrom(buf: Bytes, chunks: seq<Bytes>)
    requires React(true, buf).Waits? && (buf == [] || Plaintext(true, buf))
    requires Plaintext(true, buf + Concat(chunks)) && !Ambiguous(buf + Concat(chunks))
    ensures Play(true, buf, chunks) == React(true, buf + Concat(chunks))
    decreases |chunks|
  {
    hide EndOfHead, FromClientHello;
    var s := buf + Concat(chunks);
    if chunks == [] {
      assert s == buf;
    } else {
      var b, rest := buf + chunks[0], Concat(chunks[1..]);
      assert s == b + rest;
      if b == [] {
        assert b == buf;
        PlaintextFrom(b, chunks[1..]);
      } else {
        assert s[0] == b[0];
        EndStays(b, rest, 0);
        if React(true, b).Waits? {
          PlaintextFrom(b, chunks[1..]);
        } else if |b| <= HEAD_LIMIT {
          var end := EndOfHead(b, 0).value;
          assert s[..end] == b[..end];
        }
      }
    }
  }

  lemma WholeOrSplit(s: Bytes, n: nat)
    requires n <= |s|
    ensures Concat([s]) == s && Concat([s[..n], s[n..]]) == s
    ensures Play(true, [], [s]) == React(true, s)
    ensures !React(true, s[..n]).Waits? ==> Play(true, [], [s[..n], s[n..]]) == React(true, s[..n])
  {
    assert [s][1..] == [] && [] + s == s && s + [] == s;
    var two := [s[..n], s[n..]];
    assert two[1..] == [s[n..]] && [s[n..]][1..] == [] && [] + s[..n] == s[..n] && s[n..] + [] == s[n..];
    assert Concat(two) == s[..n] + Concat(two[1..]) == s[..n] + s[n..] == s;
  }

  lemma EndWithin(s: Bytes, i: nat, n: nat)
    requires n <= |s| && EndOfHead(s, i).Some? && EndOfHead(s, i).value + 4 <= n
    ensures EndOfHead(s[..n], i) == EndOfHead(s, i)
    decreases n - i
  {
    assert s[..n][i..i + 4] == s[i..i + 4];
    if s[i..i + 4] != END_OF_HEAD { EndWithin(s, i + 1, n); }
  }

  /** For plaintext the outcome depends on the cutting exactly when the bytes run past the
      limit although the head ends within it: the redirect wins or loses by the boundary. */
  lemma RedirectChunkingMattersExactly(s: Bytes)
    requires Plaintext(true, s)
    ensures (forall chunks: seq<Bytes> | Concat(chunks) == s :: Play(true, [], chunks) == React(true, s)) <==> !Ambiguous(s)
  {
    if !Ambiguous(s) {
      forall chunks: seq<Bytes> | Concat(chunks) == s ensures Play(true, [], chunks) == React(true, s) {
        assert [] + Concat(chunks) == s;
        PlaintextFrom([], chunks);
      }
    } else {
      WholeOrSplit(s, HEAD_LIMIT);
      EndWithin(s, 0, HEAD_LIMIT);
      var head := s[..HEAD_LIMIT];
      assert head[0] == s[0];
      assert React(true, head).Redirects?;
      var two := [head, s[HEAD_LIMIT..]];
      assert Concat(two) == s && Play(true, [], two) != React(true, s);
    }
  }
}
