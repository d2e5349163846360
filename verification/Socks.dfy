/** The SOCKS5 front of egress.js: the handshake as a machine over buffered bytes
    (RFC 1928, sections 3, 4 and 6; RFC 1929, section 2). */
module Socks {
  import opened Common

  const MAX_HANDSHAKE := 4096

  datatype Host = Ip4(b: Bytes) | Ip6(b: Bytes) | Domain(b: Bytes)

  datatype Out =
    | Write(b: Bytes)
    | End(b: Bytes)
    | Destroy
    | Connect(id: Option<Bytes>, host: Host, port: nat)   // beginConnect

  /** `Over`: the socket was destroyed, and no more data reaches it. */
  datatype Phase = Greet | Auth | Request | Done | Over

  datatype Sock = Sock(buf: Bytes, phase: Phase, authed: Option<Bytes>)

  const Fresh := Sock([], Greet, None)

  /** Which user name and password pairs are good, and which ids exist. */
  datatype World = World(tokenOk: (Bytes, Bytes) -> bool, known: Bytes -> bool)

  const GENERAL_FAILURE: Bytes := [5, 1, 0, 1, 0, 0, 0, 0, 0, 0]

  /** One turn of the loop: more bytes are needed; an output and on to the next turn; or an
      output and step returns. After `sock.end` on a refusal the phase is what it was, so
      bytes arriving later are read again. */
  datatype Turn = Need | Go(s: Sock, out: Out) | Halt(s: Sock, out: Out)

  function Kill(s: Sock): Turn { Halt(s.(phase := Over), Destroy) }

  function Greeting(s: Sock): Turn {
    if |s.buf| < 2 then Need
    else if s.buf[0] != 5 then Kill(s)
    else
      var end := 2 + s.buf[1] as int;
      if |s.buf| < end then Need
      else if 2 !in s.buf[2..end] then Halt(s.(buf := s.buf[end..]), End([5, 255]))
      else Go(s.(buf := s.buf[end..], phase := Auth), Write([5, 2]))
  }

  function Authentication(s: Sock, w: World): Turn {
    if |s.buf| < 2 then Need
    else if s.buf[0] != 1 then Kill(s)
    else
      var p := 2 + s.buf[1] as int;
      if |s.buf| < p + 1 then Need
      else
        var end := p + 1 + s.buf[p] as int;
        if |s.buf| < end then Need
        else
          var id, pass := s.buf[2..p], s.buf[p + 1..end];
          if id == [] || !w.tokenOk(id, pass) || !w.known(id) then Halt(s.(buf := s.buf[end..]), End([1, 1]))
          else Go(s.(buf := s.buf[end..], phase := Request, authed := Some(id)), Write([1, 0]))
  }

  /** The request's address, once it is all there: the host and where its port stands. */
  datatype Address = Short | Bad | At(host: Host, off: nat)

  function ReadAddress(buf: Bytes): (a: Address)
    requires |buf| >= 4
    ensures a.At? ==> a.off + 2 <= |buf|
  {
    if buf[3] == 1 then (if |buf| < 10 then Short else At(Ip4(buf[4..8]), 8))
    else if buf[3] == 4 then (if |buf| < 22 then Short else At(Ip6(buf[4..20]), 20))
    else if buf[3] == 3 then
      // with the length byte itself missing the source compares with NaN, and waits
      (if |buf| < 5 || |buf| < 7 + buf[4] as int then Short else At(Domain(buf[5..5 + buf[4] as int]), 5 + buf[4] as int))
    else Bad
  }

  function Requesting(s: Sock): Turn {
    if |s.buf| < 4 then Need
    else if s.buf[0] != 5 then Kill(s)
    else match ReadAddress(s.buf)
      case Short => Need
      case Bad => Kill(s)
      case At(host, off) =>
        var rest := s.(buf := s.buf[off + 2..], phase := Done);
        if s.buf[1] != 1 then Halt(rest, End(GENERAL_FAILURE))
        else Halt(rest, Connect(s.authed, host, Get16(s.buf, off)))
  }

  function TurnOf(s: Sock, w: World): Turn {
    match s.phase
    case Greet => Greeting(s)
    case Auth => Authentication(s, w)
    case Request => Requesting(s)
    case Done => Need
    case Over => Need
  }

  function Rank(p: Phase): nat {
    match p
    case Greet => 4
    case Auth => 3
    case Request => 2
    case Done => 1
    case Over => 0
  }

  /** step: as many turns as the bytes allow. */
  function Steps(s: Sock, w: World): (Sock, seq<Out>)
    decreases Rank(s.phase)
  {
    match TurnOf(s, w)
    case Need => (s, [])
    case Halt(t, out) => (t, [out])
    case Go(t, out) =>
      var (end, outs) := Steps(t, w);
      (end, [out] + outs)
  }

  /** The data handler. */
  function OnData(s: Sock, d: Bytes, w: World): (Sock, seq<Out>) {
    if s.phase.Done? || s.phase.Over? then (s, [])
    else if |s.buf| + |d| > MAX_HANDSHAKE then (Sock(s.buf + d, Over, s.authed), [Destroy])
    else Steps(s.(buf := s.buf + d), w)
  }

  /** step returned because of its last output. */
  predicate Halted(outs: seq<Out>) { outs != [] && !outs[|outs| - 1].Write? }

  // --- what every turn keeps -------------------------------------------------------------------------

  lemma TurnKeeps(s: Sock, w: World)
    ensures !TurnOf(s, w).Need? ==> |TurnOf(s, w).s.buf| <= |s.buf|
    ensures TurnOf(s, w).Halt? ==> !TurnOf(s, w).out.Write?
    ensures TurnOf(s, w).Go? ==> TurnOf(s, w).out.Write? && Rank(TurnOf(s, w).s.phase) < Rank(s.phase)
  {
    hide ReadAddress;
  }

  /** step writes its replies, and either halts with one last output or waits for bytes. */
  lemma {:induction false} StepsKeep(s: Sock, w: World)
    ensures var (t, outs) := Steps(s, w);
            && |t.buf| <= |s.buf|
            && (!Halted(outs) ==> TurnOf(t, w).Need?)
            && forall i | 0 <= i < |outs| - 1 :: outs[i].Write?
    decreases Rank(s.phase)
  {
    hide TurnOf;
    TurnKeeps(s, w);
    if TurnOf(s, w).Go? { StepsKeep(TurnOf(s, w).s, w); }
  }

  function Grown(s: Sock, b: Bytes): Sock { s.(buf := s.buf + b) }

  function GrownTurn(t: Turn, b: Bytes): Turn {
    match t
    case Need => Need
    case Go(s, out) => Go(Grown(s, b), out)
    case Halt(s, out) => Halt(Grown(s, b), out)
  }

  lemma GreetingStable(s: Sock, b: Bytes)
    requires !Greeting(s).Need?
    ensures Greeting(Grown(s, b)) == GrownTurn(Greeting(s), b)
  {
    var t := Grown(s, b);
    if s.buf[0] == 5 {
      var end := 2 + s.buf[1] as int;
      assert t.buf[2..end] == s.buf[2..end] && t.buf[end..] == s.buf[end..] + b;
    }
  }

  lemma AuthenticationStable(s: Sock, b: Bytes, w: World)
    requires !Authentication(s, w).Need?
    ensures Authentication(Grown(s, b), w) == GrownTurn(Authentication(s, w), b)
  {
    var t := Grown(s, b);
    if s.buf[0] == 1 {
      var p := 2 + s.buf[1] as int;
      var end := p + 1 + s.buf[p] as int;
      assert t.buf[p] == s.buf[p];
      assert t.buf[2..p] == s.buf[2..p] && t.buf[p + 1..end] == s.buf[p + 1..end] && t.buf[end..] == s.buf[end..] + b;
    }
  }

  lemma AddressStable(buf: Bytes, b: Bytes)
    requires |buf| >= 4 && !ReadAddress(buf).Short?
    ensures ReadAddress(buf + b) == ReadAddress(buf)
  {
    if buf[3] == 1 { assert (buf + b)[4..8] == buf[4..8]; }
    if buf[3] == 4 { assert (buf + b)[4..20] == buf[4..20]; }
    if buf[3] == 3 { assert (buf + b)[5..5 + buf[4] as int] == buf[5..5 + buf[4] as int]; }
  }

  lemma RequestingStable(s: Sock, b: Bytes)
    requires !Requesting(s).Need?
    ensures Requesting(Grown(s, b)) == GrownTurn(Requesting(s), b)
  {
    hide ReadAddress;
    if s.buf[0] == 5 {
      AddressStable(s.buf, b);
      match ReadAddress(s.buf)
      case At(host, off) =>
        assert (s.buf + b)[off + 2..] == s.buf[off + 2..] + b;
        assert Get16(s.buf + b, off) == Get16(s.buf, off);
      case _ =>
    }
  }

  /** A turn taken on fewer bytes is the turn taken on more. */
  lemma TurnStable(s: Sock, b: Bytes, w: World)
    requires !TurnOf(s, w).Need?
    ensures TurnOf(Grown(s, b), w) == GrownTurn(TurnOf(s, w), b)
  {
    hide Greeting, Authentication, Requesting;
    match s.phase
    case Greet => GreetingStable(s, b);
    case Auth => AuthenticationStable(s, b, w);
    case Request => RequestingStable(s, b);
    case _ =>
  }

  /** With more bytes step does what it did, and goes on from there if it was waiting. */
  lemma {:induction false} StepsResume(s: Sock, b: Bytes, w: World)
    ensures var (t, outs) := Steps(s, w);
            Steps(Grown(s, b), w)
            == if Halted(outs) then (Grown(t, b), outs)
               else (Steps(Grown(t, b), w).0, outs + Steps(Grown(t, b), w).1)
    decreases Rank(s.phase)
  {
    hide TurnOf;
    TurnKeeps(s, w);
    if TurnOf(s, w).Need? {
      assert [] + Steps(Grown(s, b), w).1 == Steps(Grown(s, b), w).1;
    } else {
      TurnStable(s, b, w);
      if TurnOf(s, w).Go? {
        var t, out := TurnOf(s, w).s, TurnOf(s, w).out;
        StepsResume(t, b, w);
        var (e, outs) := Steps(t, w);
        if !Halted(outs) {
          assert [out] + (outs + Steps(Grown(e, b), w).1) == ([out] + outs) + Steps(Grown(e, b), w).1;
        }
      }
    }
  }

  lemma Idle(s: Sock, w: World)
    requires TurnOf(s, w).Need?
    ensures Steps(s, w) == (s, [])
  {}

  // --- chunks ------------------------------------------------------------------------------------------

  function Concat(chunks: seq<Bytes>): Bytes { if chunks == [] then [] else chunks[0] + Concat(chunks[1..]) }

  /** The socket over the chunks it receives. */
  function Play(s: Sock, chunks: seq<Bytes>, w: World): (Sock, seq<Out>)
    decreases |chunks|
  {
    if chunks == [] then (s, [])
    else
      var (t, outs) := OnData(s, chunks[0], w);
      var (end, more) := Play(t, chunks[1..], w);
      (end, outs + more)
  }

  /** Up to the first end, destroy or CONNECT, that one included. */
  function UpToStop(outs: seq<Out>): (r: seq<Out>)
    ensures r <= outs && (Halted(r) || r == outs)
  {
    if outs == [] then []
    else if outs[0].Write? then [outs[0]] + UpToStop(outs[1..])
    else [outs[0]]
  }

  lemma {:induction false} UpToStopJoins(outs: seq<Out>, more: seq<Out>)
    requires forall i | 0 <= i < |outs| - 1 :: outs[i].Write?
    ensures UpToStop(outs + more) == if Halted(outs) then outs else outs + UpToStop(more)
  {
    if outs == [] {
      assert outs + more == more;
    } else {
      assert (outs + more)[0] == outs[0] && (outs + more)[1..] == outs[1..] + more;
      UpToStopJoins(outs[1..], more);
    }
  }

  lemma {:induction false} PlayStopped(s: Sock, chunks: seq<Bytes>, w: World)
    requires s.phase.Done? || s.phase.Over?
    ensures Play(s, chunks, w) == (s, [])
    decreases |chunks|
  {
    if chunks != [] {
      PlayStopped(s, chunks[1..], w);
      var none: seq<Out> := [];
      assert none + none == none;
    }
  }

  lemma PlayUnfolds(s: Sock, chunks: seq<Bytes>, w: World)
    requires chunks != [] && !s.phase.Done? && !s.phase.Over? && |s.buf| + |chunks[0]| <= MAX_HANDSHAKE
    ensures var (t, outs) := Steps(Grown(s, chunks[0]), w);
            var (end, more) := Play(t, chunks[1..], w);
            Play(s, chunks, w) == (end, outs + more)
  {
    hide Steps;
    assert OnData(s, chunks[0], w) == Steps(Grown(s, chunks[0]), w);
  }

  /** The first chunk taken, and what comes of all of them at once. */
  lemma FirstChunk(s: Sock, chunks: seq<Bytes>, w: World)
    requires chunks != [] && |s.buf| + |Concat(chunks)| <= MAX_HANDSHAKE
    ensures var rest := Concat(chunks[1..]);
            var (t, outs) := Steps(Grown(s, chunks[0]), w);
            && |t.buf| + |rest| <= MAX_HANDSHAKE
            && (!Halted(outs) ==> TurnOf(t, w).Need?)
            && (forall i | 0 <= i < |outs| - 1 :: outs[i].Write?)
  {
    hide Steps, TurnOf, Halted;
    StepsKeep(Grown(s, chunks[0]), w);
  }

  lemma GrownTwice(s: Sock, a: Bytes, b: Bytes)
    ensures Grown(Grown(s, a), b) == Grown(s, a + b)
  {
    assert (s.buf + a) + b == s.buf + (a + b);
  }

  lemma AllAtOnce(s: Sock, a: Bytes, rest: Bytes, w: World)
    ensures var (t, outs) := Steps(Grown(s, a), w);
            Steps(Grown(s, a + rest), w)
            == if Halted(outs) then (Grown(t, rest), outs)
               else (Steps(Grown(t, rest), w).0, outs + Steps(Grown(t, rest), w).1)
  {
    GrownTwice(s, a, rest);
    hide Steps, Halted, Grown;
    StepsResume(Grown(s, a), rest, w);
  }

  lemma {:induction false} PlayFrom(s: Sock, chunks: seq<Bytes>, w: World)
    requires TurnOf(s, w).Need?
    requires |s.buf| + |Concat(chunks)| <= MAX_HANDSHAKE
    ensures UpToStop(Play(s, chunks, w).1) == Steps(Grown(s, Concat(chunks)), w).1
    decreases |chunks|
  {
    if s.phase.Done? || s.phase.Over? {
      PlayStopped(s, chunks, w);
    } else if chunks == [] {
      assert Grown(s, []) == s;
    } else {
      hide TurnOf, Steps, Play;
      FirstChunk(s, chunks, w);
      AllAtOnce(s, chunks[0], Concat(chunks[1..]), w);
      PlayUnfolds(s, chunks, w);
      var (t, outs) := Steps(Grown(s, chunks[0]), w);
      UpToStopJoins(outs, Play(t, chunks[1..], w).1);
      if !Halted(outs) { PlayFrom(t, chunks[1..], w); }
    }
  }

  /** When what is left after a refusal makes no further turn, the whole play is one step. */
  lemma {:induction false} PlayQuiet(s: Sock, chunks: seq<Bytes>, w: World)
    requires TurnOf(s, w).Need?
    requires |s.buf| + |Concat(chunks)| <= MAX_HANDSHAKE
    requires TurnOf(Steps(Grown(s, Concat(chunks)), w).0, w).Need?
    ensures Play(s, chunks, w).1 == Steps(Grown(s, Concat(chunks)), w).1
    decreases |chunks|
  {
    if s.phase.Done? || s.phase.Over? {
      PlayStopped(s, chunks, w);
    } else if chunks == [] {
      assert Grown(s, []) == s;
    } else {
      hide TurnOf, Steps, Play;
      FirstChunk(s, chunks, w);
      AllAtOnce(s, chunks[0], Concat(chunks[1..]), w);
      PlayUnfolds(s, chunks, w);
      var (t, outs) := Steps(Grown(s, chunks[0]), w);
      var rest := Concat(chunks[1..]);
      if Halted(outs) {
        if !TurnOf(t, w).Need? { TurnStable(t, rest, w); }
        Idle(Grown(t, rest), w);
      }
      PlayQuiet(t, chunks[1..], w);
    }
  }

  // --- cutting where a refusal ends ----------------------------------------------------------------------

  function Cut(s: Sock, k: nat): Sock
    requires k <= |s.buf|
  {
    s.(buf := s.buf[..|s.buf| - k])
  }

  function CutTurn(t: Turn, k: nat): Turn
    requires !t.Need? ==> k <= |t.s.buf|
  {
    match t
    case Need => Need
    case Go(s, out) => Go(Cut(s, k), out)
    case Halt(s, out) => Halt(Cut(s, k), out)
  }

  predicate LeavesTail(s: Sock, t: Sock) {
    |t.buf| <= |s.buf| && t.buf == s.buf[|s.buf| - |t.buf|..]
  }

  lemma GreetingCut(s: Sock, k: nat)
    requires var t := Greeting(s); !t.Need? && !t.s.phase.Over? && k <= |t.s.buf|
    ensures LeavesTail(s, Greeting(s).s) && Greeting(Cut(s, k)) == CutTurn(Greeting(s), k)
  {
    var end := 2 + s.buf[1] as int;
    Within(s.buf, |s.buf| - k, 2, end);
    Remains(s.buf, |s.buf| - k, end);
    Remains(s.buf, |s.buf|, end);
  }

  lemma AuthenticationCut(s: Sock, k: nat, w: World)
    requires var t := Authentication(s, w); !t.Need? && !t.s.phase.Over? && k <= |t.s.buf|
    ensures LeavesTail(s, Authentication(s, w).s) && Authentication(Cut(s, k), w) == CutTurn(Authentication(s, w), k)
  {
    var n := |s.buf| - k;
    var p := 2 + s.buf[1] as int;
    var end := p + 1 + s.buf[p] as int;
    Within(s.buf, n, 2, p);
    Within(s.buf, n, p + 1, end);
    Remains(s.buf, n, end);
    Remains(s.buf, |s.buf|, end);
  }

  lemma Within(b: Bytes, n: nat, i: nat, j: nat)
    requires i <= j <= n <= |b|
    ensures b[..n][i..j] == b[i..j]
  {}

  lemma Remains(b: Bytes, n: nat, end: nat)
    requires end <= n <= |b|
    ensures b[..n][end..] == b[end..][..n - end] && b[end..] == b[|b| - (|b| - end)..]
  {}

  /** Greeting and login read nothing behind the bytes they take off. */
  lemma TurnCut(s: Sock, k: nat, w: World)
    requires !TurnOf(s, w).Need? && k <= |TurnOf(s, w).s.buf|
    requires !TurnOf(s, w).s.phase.Over? && !TurnOf(s, w).s.phase.Done?
    ensures LeavesTail(s, TurnOf(s, w).s) && TurnOf(Cut(s, k), w) == CutTurn(TurnOf(s, w), k)
  {
    hide Greeting, Authentication, ReadAddress, LeavesTail;
    if s.phase.Greet? { GreetingCut(s, k); } else { AuthenticationCut(s, k, w); }
  }

  /** A refusal that leaves bytes behind is the same refusal without them. */
  lemma {:induction false} StepsCut(s: Sock, w: World)
    requires !TurnOf(Steps(s, w).0, w).Need?
    ensures var (t, outs) := Steps(s, w);
            && Halted(outs) && |t.buf| <= |s.buf| && s.buf[|s.buf| - |t.buf|..] == t.buf
            && Steps(Cut(s, |t.buf|), w) == (Cut(t, |t.buf|), outs)
    decreases Rank(s.phase)
  {
    hide Greeting, Authentication, ReadAddress;
    StepsKeep(s, w);
    TurnKeeps(s, w);
    var t := Steps(s, w).0;
    if TurnOf(s, w).Go? { StepsCut(TurnOf(s, w).s, w); }
    TurnCut(s, |t.buf|, w);
  }

  // --- main results ------------------------------------------------------------------------------------

  /** For up to 4096 bytes cut in any way, up to the first end, destroy or CONNECT the socket
      answers just as if they had come at once. */
  lemma ChunkingIgnored(chunks: seq<Bytes>, w: World)
    requires |Concat(chunks)| <= 4096
    ensures UpToStop(Play(Fresh, chunks, w).1) == Play(Fresh, [Concat(chunks)], w).1
  {
    PlayFrom(Fresh, chunks, w);
    PlayAtOnce(Concat(chunks), w);
  }

  lemma PlayAtOnce(b: Bytes, w: World)
    requires |b| <= MAX_HANDSHAKE
    ensures Play(Fresh, [b], w) == Steps(Sock(b, Greet, None), w)
    ensures Grown(Fresh, b) == Sock(b, Greet, None)
  {
    assert Fresh.buf + b == b;
    PlayLast(Fresh, b, w);
  }

  /** Given these bytes at once, the socket refuses, and the bytes it leaves unread hold
      another turn: a whole greeting or login, or a wrong version. */
  predicate ReadsOn(b: Bytes, w: World) { !TurnOf(Steps(Sock(b, Greet, None), w).0, w).Need? }

  /** Past that first stop the cut does matter, and exactly when a refused handshake is
      followed by enough bytes for another turn. */
  lemma CuttingMattersExactly(b: Bytes, w: World)
    requires |b| <= 4096
    ensures (exists chunks :: Concat(chunks) == b && Play(Fresh, chunks, w).1 != Play(Fresh, [b], w).1)
            <==> ReadsOn(b, w)
  {
    hide TurnOf, Steps, Play;
    PlayAtOnce(b, w);
    FreshWaits(w);
    if ReadsOn(b, w) {
      RefusalCut(b, w);
    } else {
      forall chunks | Concat(chunks) == b ensures Play(Fresh, chunks, w).1 == Play(Fresh, [b], w).1 {
        PlayQuiet(Fresh, chunks, w);
      }
    }
  }

  lemma FreshWaits(w: World)
    ensures TurnOf(Fresh, w).Need?
  {}

  /** The cut that shows it: right behind the refusal. */
  lemma RefusalCut(b: Bytes, w: World)
    requires |b| <= MAX_HANDSHAKE && ReadsOn(b, w)
    ensures var (t, outs) := Steps(Sock(b, Greet, None), w);
            && |t.buf| <= |b|
            && var chunks := [b[..|b| - |t.buf|], t.buf];
            Concat(chunks) == b && Play(Fresh, chunks, w).1 == outs + Steps(t, w).1 && Steps(t, w).1 != []
  {
    var s := Sock(b, Greet, None);
    StepsCut(s, w);
    var t := Steps(s, w).0;
    OverIsIdle(t, w);
    SomeOutput(t, w);
    hide Steps, TurnOf, Play, Concat;
    var a := b[..|b| - |t.buf|];
    GrownFromEmpty(Fresh, a);
    CutToNothing(t);
    assert Grown(Fresh, a) == Cut(s, |t.buf|);
    PlayTwo(Fresh, a, Cut(t, |t.buf|), t.buf, w);
    TwoChunks(a, t.buf);
    assert a + t.buf == b;
  }

  lemma GrownFromEmpty(s: Sock, a: Bytes)
    requires s.buf == []
    ensures Grown(s, a) == s.(buf := a)
  {
    assert [] + a == a;
  }

  lemma CutToNothing(t: Sock)
    ensures Cut(t, |t.buf|).buf == [] && Grown(Cut(t, |t.buf|), t.buf) == t
  {
    assert t.buf[..0] == [] && [] + t.buf == t.buf;
  }

  lemma PlayTwo(s: Sock, a: Bytes, t: Sock, b: Bytes, w: World)
    requires !s.phase.Done? && !s.phase.Over? && |s.buf| + |a| <= MAX_HANDSHAKE
    requires !t.phase.Done? && !t.phase.Over? && |t.buf| + |b| <= MAX_HANDSHAKE
    requires Steps(Grown(s, a), w).0 == t
    ensures Play(s, [a, b], w).1 == Steps(Grown(s, a), w).1 + Steps(Grown(t, b), w).1
  {
    hide Steps, Play;
    assert [a, b][1..] == [b];
    PlayUnfolds(s, [a, b], w);
    PlayLast(t, b, w);
  }

  lemma OverIsIdle(s: Sock, w: World)
    ensures s.phase.Done? || s.phase.Over? ==> TurnOf(s, w).Need?
  {}

  lemma SomeOutput(s: Sock, w: World)
    requires !TurnOf(s, w).Need?
    ensures Steps(s, w).1 != []
  {}

  lemma PlayLast(s: Sock, b: Bytes, w: World)
    requires !s.phase.Done? && !s.phase.Over? && |s.buf| + |b| <= MAX_HANDSHAKE
    ensures Play(s, [b], w) == Steps(Grown(s, b), w)
  {
    hide Steps;
    PlayUnfolds(s, [b], w);
    assert [b][1..] == [];
    assert Steps(Grown(s, b), w).1 + [] == Steps(Grown(s, b), w).1;
  }

  lemma TwoChunks(a: Bytes, b: Bytes)
    ensures Concat([a, b]) == a + b
  {
    assert [a, b][1..] == [b] && [b][1..] == [];
    assert Concat([b]) == b + Concat([]) == b;
  }

  // --- a written handshake ------------------------------------------------------------------------------

  predicate HostOk(h: Host) {
    match h
    case Ip4(b) => |b| == 4
    case Ip6(b) => |b| == 16
    case Domain(b) => |b| < 256
  }

  function WriteHost(h: Host): Bytes
    requires HostOk(h)
  {
    match h
    case Ip4(b) => [1] + b
    case Ip6(b) => [4] + b
    case Domain(b) => [3, |b|] + b
  }

  function WriteGreeting(methods: Bytes): Bytes
    requires |methods| < 256
  {
    [5, |methods|] + methods
  }

  function WriteLogin(id: Bytes, pass: Bytes): Bytes
    requires |id| < 256 && |pass| < 256
  {
    [1, |id|] + id + [|pass|] + pass
  }

  function WriteConnect(h: Host, port: nat): Bytes
    requires HostOk(h) && port < 65536
  {
    [5, 1, 0] + WriteHost(h) + U16(port)
  }

  lemma GreetingReads(methods: Bytes, rest: Bytes)
    requires |methods| < 256 && 2 in methods
    ensures Greeting(Sock(WriteGreeting(methods) + rest, Greet, None)) == Go(Sock(rest, Auth, None), Write([5, 2]))
  {
    var buf := WriteGreeting(methods) + rest;
    assert buf[2..2 + |methods|] == methods && buf[2 + |methods|..] == rest;
  }

  lemma LoginReads(id: Bytes, pass: Bytes, rest: Bytes, w: World)
    requires 0 < |id| < 256 && |pass| < 256 && w.tokenOk(id, pass) && w.known(id)
    ensures Authentication(Sock(WriteLogin(id, pass) + rest, Auth, None), w)
            == Go(Sock(rest, Request, Some(id)), Write([1, 0]))
  {
    var buf := WriteLogin(id, pass) + rest;
    var p := 2 + |id|;
    assert buf[2..p] == id && buf[p] == |pass| && buf[p + 1..p + 1 + |pass|] == pass && buf[p + 1 + |pass|..] == rest;
  }

  lemma ConnectReads(id: Bytes, h: Host, port: nat, rest: Bytes)
    requires HostOk(h) && port < 65536
    ensures Requesting(Sock(WriteConnect(h, port) + rest, Request, Some(id)))
            == Halt(Sock(rest, Done, Some(id)), Connect(Some(id), h, port))
  {
    hide U16, Get16, ReadAddress;
    var buf := WriteConnect(h, port) + rest;
    var off := 3 + |WriteHost(h)|;
    assert buf[off..off + 2] == U16(port) && buf[off + 2..] == rest;
    Got16(buf, off, port);
    assert buf == [5, 1, 0] + WriteHost(h) + (U16(port) + rest);
    HostReads(h, U16(port) + rest);
  }

  lemma HostReads(h: Host, rest: Bytes)
    requires HostOk(h) && |rest| >= 2
    ensures ReadAddress([5, 1, 0] + WriteHost(h) + rest) == At(h, 3 + |WriteHost(h)|)
  {
    match h
    case Ip4(b) => Ip4Reads(b, rest);
    case Ip6(b) => Ip6Reads(b, rest);
    case Domain(b) => DomainReads(b, rest);
  }

  lemma Ip4Reads(b: Bytes, rest: Bytes)
    requires |b| == 4 && |rest| >= 2
    ensures ReadAddress([5, 1, 0] + ([1] + b) + rest) == At(Ip4(b), 8)
  {
    assert ([5, 1, 0] + ([1] + b) + rest)[4..8] == b;
  }

  lemma Ip6Reads(b: Bytes, rest: Bytes)
    requires |b| == 16 && |rest| >= 2
    ensures ReadAddress([5, 1, 0] + ([4] + b) + rest) == At(Ip6(b), 20)
  {
    assert ([5, 1, 0] + ([4] + b) + rest)[4..20] == b;
  }

  lemma DomainReads(b: Bytes, rest: Bytes)
    requires |b| < 256 && |rest| >= 2
    ensures ReadAddress([5, 1, 0] + ([3, |b|] + b) + rest) == At(Domain(b), 5 + |b|)
  {
    assert ([5, 1, 0] + ([3, |b|] + b) + rest)[5..5 + |b|] == b;
  }

  /** A client that offers user/password, logs in and asks for a CONNECT gets exactly that:
      the two good replies and a connection to its host and port under its own id. */
  lemma WrittenHandshakeConnects(methods: Bytes, id: Bytes, pass: Bytes, h: Host, port: nat, rest: Bytes, w: World)
    requires |methods| < 256 && 2 in methods && 0 < |id| < 256 && |pass| < 256 && HostOk(h) && port < 65536
    requires w.tokenOk(id, pass) && w.known(id)
    ensures Steps(Sock(WriteGreeting(methods) + (WriteLogin(id, pass) + (WriteConnect(h, port) + rest)), Greet, None), w)
            == (Sock(rest, Done, Some(id)), [Write([5, 2]), Write([1, 0]), Connect(Some(id), h, port)])
  {
    hide WriteGreeting, WriteLogin, WriteConnect, Greeting, Authentication, Requesting;
    var r2 := WriteConnect(h, port) + rest;
    var r1 := WriteLogin(id, pass) + r2;
    GreetingReads(methods, r1);
    LoginReads(id, pass, r2, w);
    ConnectReads(id, h, port, rest);
    OneTurn(Sock(r1, Auth, None), w);
    OneTurn(Sock(WriteGreeting(methods) + r1, Greet, None), w);
    var c := Connect(Some(id), h, port);
    assert [Write([1, 0])] + [c] == [Write([1, 0]), c];
    assert [Write([5, 2])] + [Write([1, 0]), c] == [Write([5, 2]), Write([1, 0]), c];
  }

  lemma OneTurn(s: Sock, w: World)
    requires TurnOf(s, w).Go?
    ensures var (t, outs) := Steps(TurnOf(s, w).s, w);
            Steps(s, w) == (t, [TurnOf(s, w).out] + outs)
  {
    hide TurnOf;
  }

  /** A greeting that offers user and password, the login and the CONNECT. */
  function Handshake(methods: Bytes, id: Bytes, pass: Bytes, h: Host, port: nat): (r: Bytes)
    requires |methods| < 256 && |id| < 256 && |pass| < 256 && HostOk(h) && port < 65536
    ensures |r| <= 1200
  {
    WriteGreeting(methods) + (WriteLogin(id, pass) + (WriteConnect(h, port) + []))
  }

  lemma HandshakeConnects(methods: Bytes, id: Bytes, pass: Bytes, h: Host, port: nat, w: World)
    requires |methods| < 256 && 2 in methods && 0 < |id| < 256 && |pass| < 256 && HostOk(h) && port < 65536
    requires w.tokenOk(id, pass) && w.known(id)
    ensures Steps(Sock(Handshake(methods, id, pass, h, port), Greet, None), w).1
            == [Write([5, 2]), Write([1, 0]), Connect(Some(id), h, port)]
  {
    WrittenHandshakeConnects(methods, id, pass, h, port, [], w);
  }

  /** A refusal and then a good handshake: at once the socket only refuses, in two chunks it
      refuses, says both good replies and connects. */
  lemma RefusedThenConnects(methods: Bytes, id: Bytes, pass: Bytes, h: Host, port: nat, w: World)
    requires |methods| < 256 && 2 in methods && 0 < |id| < 256 && |pass| < 256 && HostOk(h) && port < 65536
    requires w.tokenOk(id, pass) && w.known(id)
    ensures var hello := Handshake(methods, id, pass, h, port);
            && Play(Fresh, [[5, 1, 0] + hello], w).1 == [End([5, 255])]
            && Play(Fresh, [[5, 1, 0], hello], w).1
               == [End([5, 255]), Write([5, 2]), Write([1, 0]), Connect(Some(id), h, port)]
  {
    hide *;
    HandshakeConnects(methods, id, pass, h, port, w);
    RefusedFirst(Handshake(methods, id, pass, h, port), w);
  }

  lemma RefusedFirst(hello: Bytes, w: World)
    requires Steps(Sock(hello, Greet, None), w).1 != [] && |hello| <= 1200
    ensures Play(Fresh, [[5, 1, 0] + hello], w).1 == [End([5, 255])]
    ensures Play(Fresh, [[5, 1, 0], hello], w).1 == [End([5, 255])] + Steps(Sock(hello, Greet, None), w).1
  {
    var b := [5, 1, 0] + hello;
    assert Steps(Sock(b, Greet, None), w) == (Sock(hello, Greet, None), [End([5, 255])]) by {
      assert b[2..3] == [0] && b[3..] == hello;
    }
    hide Steps, TurnOf, Play;
    PlayAtOnce(b, w);
    RefusalCut(b, w);
    assert b[..|b| - |hello|] == [5, 1, 0];
  }

  // --- whose CONNECT it is ------------------------------------------------------------------------------

  /** A good login for this id is the last thing read of the bytes seen; the rest is unread. */
  ghost predicate LoggedIn(seen: Bytes, id: Bytes, unread: Bytes, w: World) {
    exists pre: Bytes, pass: Bytes ::
      && 0 < |id| < 256 && |pass| < 256 && w.tokenOk(id, pass) && w.known(id)
      && seen == pre + WriteLogin(id, pass) + unread
  }

  /** The bytes hold a good login for the id, and right behind it the request for this host
      and port (whatever its reserved byte). */
  ghost predicate Asked(seen: Bytes, id: Bytes, h: Host, port: nat, w: World) {
    exists unread: Bytes, rsv: byte, rest: Bytes ::
      && LoggedIn(seen, id, unread, w) && HostOk(h) && port < 65536
      && unread == [5, 1, rsv] + WriteHost(h) + U16(port) + rest
  }

  /** What the socket keeps of the bytes it has seen. */
  ghost predicate Knows(s: Sock, seen: Bytes, w: World) {
    && |s.buf| <= |seen| && s.buf == seen[|seen| - |s.buf|..]
    && (s.phase.Request? ==> s.authed.Some? && LoggedIn(seen, s.authed.value, s.buf, w))
  }

  lemma LoggedInGrown(seen: Bytes, id: Bytes, unread: Bytes, b: Bytes, w: World)
    requires LoggedIn(seen, id, unread, w)
    ensures LoggedIn(seen + b, id, unread + b, w)
  {
    hide WriteLogin;
    var pre: Bytes, pass: Bytes :|
      && 0 < |id| < 256 && |pass| < 256 && w.tokenOk(id, pass) && w.known(id)
      && seen == pre + WriteLogin(id, pass) + unread;
    assert seen + b == pre + WriteLogin(id, pass) + (unread + b);
  }

  lemma AskedGrown(seen: Bytes, id: Bytes, h: Host, port: nat, b: Bytes, w: World)
    requires Asked(seen, id, h, port, w)
    ensures Asked(seen + b, id, h, port, w)
  {
    hide LoggedIn, U16, WriteHost;
    var unread: Bytes, rsv: byte, rest: Bytes :|
      && LoggedIn(seen, id, unread, w) && HostOk(h) && port < 65536
      && unread == [5, 1, rsv] + WriteHost(h) + U16(port) + rest;
    LoggedInGrown(seen, id, unread, b, w);
    assert unread + b == [5, 1, rsv] + WriteHost(h) + U16(port) + (rest + b);
  }

  lemma KnowsGrown(s: Sock, seen: Bytes, b: Bytes, w: World)
    requires Knows(s, seen, w)
    ensures Knows(Grown(s, b), seen + b, w)
  {
    hide LoggedIn;
    if s.phase.Request? { LoggedInGrown(seen, s.authed.value, s.buf, b, w); }
    TailGrown(s.buf, seen, b);
  }

  lemma TailGrown(buf: Bytes, seen: Bytes, b: Bytes)
    requires |buf| <= |seen| && buf == seen[|seen| - |buf|..]
    ensures buf + b == (seen + b)[|seen + b| - |buf + b|..]
  {}

  lemma TailOfTail(seen: Bytes, buf: Bytes, end: nat)
    requires |buf| <= |seen| && buf == seen[|seen| - |buf|..] && end <= |buf|
    ensures buf[end..] == seen[|seen| - (|buf| - end)..]
  {}

  lemma InThree(seen: Bytes, buf: Bytes, end: nat)
    requires |buf| <= |seen| && buf == seen[|seen| - |buf|..] && end <= |buf|
    ensures seen == seen[..|seen| - |buf|] + buf[..end] + buf[end..]
  {}

  lemma GreetingKnows(s: Sock, seen: Bytes, w: World)
    requires Knows(s, seen, w) && s.phase.Greet? && !Greeting(s).Need?
    ensures Knows(Greeting(s).s, seen, w)
  {
    hide LoggedIn;
    if s.buf[0] == 5 { TailOfTail(seen, s.buf, 2 + s.buf[1] as int); }
  }

  lemma AuthenticationKnows(s: Sock, seen: Bytes, w: World)
    requires Knows(s, seen, w) && s.phase.Auth? && !Authentication(s, w).Need?
    ensures Knows(Authentication(s, w).s, seen, w)
  {
    if s.buf[0] == 1 {
      var p := 2 + s.buf[1] as int;
      var end := p + 1 + s.buf[p] as int;
      TailOfTail(seen, s.buf, end);
      var t := Authentication(s, w);
      assert t.s.buf == s.buf[end..] && (t.s.phase.Request? ==> t.Go?);
      if t.Go? { LoginSeen(s.buf, p, end, seen, w); }
      hide LoggedIn, Authentication;
    }
  }

  lemma LoginSeen(buf: Bytes, p: nat, end: nat, seen: Bytes, w: World)
    requires |buf| >= 2 && buf[0] == 1 && p == 2 + buf[1] as int && p < |buf| && end == p + 1 + buf[p] as int && end <= |buf|
    requires |buf| <= |seen| && buf == seen[|seen| - |buf|..]
    requires buf[2..p] != [] && w.tokenOk(buf[2..p], buf[p + 1..end]) && w.known(buf[2..p])
    ensures LoggedIn(seen, buf[2..p], buf[end..], w)
  {
    LoginWritten(buf, p, end);
    InThree(seen, buf, end);
    hide WriteLogin;
    assert seen == seen[..|seen| - |buf|] + WriteLogin(buf[2..p], buf[p + 1..end]) + buf[end..];
  }

  lemma LoginWritten(buf: Bytes, p: nat, end: nat)
    requires |buf| >= 2 && buf[0] == 1 && p == 2 + buf[1] as int && p < |buf| && end == p + 1 + buf[p] as int && end <= |buf|
    ensures buf[..end] == WriteLogin(buf[2..p], buf[p + 1..end])
  {}

  lemma RequestingKnows(s: Sock, seen: Bytes, w: World)
    requires Knows(s, seen, w) && s.phase.Request? && !Requesting(s).Need?
    ensures Knows(Requesting(s).s, seen, w)
    ensures Requesting(s).out.Connect? ==>
              var c := Requesting(s).out;
              c.id.Some? && Asked(seen, c.id.value, c.host, c.port, w)
  {
    hide LoggedIn, ReadAddress, Get16, U16, WriteHost, HostOk, Asked;
    if s.buf[0] == 5 && ReadAddress(s.buf).At? {
      TailOfTail(seen, s.buf, ReadAddress(s.buf).off + 2);
      if s.buf[1] == 1 { RequestAsked(s.buf, seen, s.authed.value, w); }
    }
  }

  lemma RequestAsked(buf: Bytes, seen: Bytes, id: Bytes, w: World)
    requires |buf| >= 4 && buf[0] == 5 && buf[1] == 1 && ReadAddress(buf).At? && LoggedIn(seen, id, buf, w)
    ensures Asked(seen, id, ReadAddress(buf).host, Get16(buf, ReadAddress(buf).off), w)
  {
    AddressWritten(buf);
    hide LoggedIn, ReadAddress, Get16, U16, WriteHost, HostOk;
    var h, off := ReadAddress(buf).host, ReadAddress(buf).off;
    var port, rest := Get16(buf, off), buf[off + 2..];
    Is16(buf, off);
    InFour(buf, off);
    assert buf[..3] == [5, 1, buf[2]];
    assert buf == [5, 1, buf[2]] + WriteHost(h) + U16(port) + rest;
  }

  lemma InFour(buf: Bytes, off: nat)
    requires 3 <= off <= off + 2 <= |buf|
    ensures buf == buf[..3] + buf[3..off] + buf[off..off + 2] + buf[off + 2..]
  {}

  lemma AddressWritten(buf: Bytes)
    requires |buf| >= 4 && ReadAddress(buf).At?
    ensures var a := ReadAddress(buf);
            HostOk(a.host) && 3 <= a.off && a.off + 2 <= |buf| && buf[3..a.off] == WriteHost(a.host)
  {}

  lemma TurnKnows(s: Sock, seen: Bytes, w: World)
    requires Knows(s, seen, w) && !TurnOf(s, w).Need?
    ensures Knows(TurnOf(s, w).s, seen, w)
    ensures s.phase.Request? && TurnOf(s, w).out.Connect? ==>
              var c := TurnOf(s, w).out;
              c.id.Some? && Asked(seen, c.id.value, c.host, c.port, w)
  {
    hide Greeting, Authentication, Requesting, Knows;
    match s.phase
    case Greet => GreetingKnows(s, seen, w);
    case Auth => AuthenticationKnows(s, seen, w);
    case Request => RequestingKnows(s, seen, w);
    case _ =>
  }

  lemma {:induction false} StepsKnow(s: Sock, seen: Bytes, w: World)
    requires Knows(s, seen, w)
    ensures Knows(Steps(s, w).0, seen, w)
    decreases Rank(s.phase)
  {
    hide TurnOf, Knows;
    TurnKeeps(s, w);
    if !TurnOf(s, w).Need? { TurnKnows(s, seen, w); }
    if TurnOf(s, w).Go? { StepsKnow(TurnOf(s, w).s, seen, w); }
  }

  /** What the client may see from a phase on: refusals and one good reply to its greetings,
      then to its logins, and then one last thing. A CONNECT is always one it asked for. */
  ghost predicate May(p: Phase, outs: seq<Out>, all: Bytes, w: World)
    decreases |outs|
  {
    outs == [] ||
    match p
    case Greet =>
      || outs == [Destroy]
      || (outs[0] == End([5, 255]) && May(Greet, outs[1..], all, w))
      || (outs[0] == Write([5, 2]) && May(Auth, outs[1..], all, w))
    case Auth =>
      || outs == [Destroy]
      || (outs[0] == End([1, 1]) && May(Auth, outs[1..], all, w))
      || (outs[0] == Write([1, 0]) && May(Request, outs[1..], all, w))
    case Request =>
      || outs == [Destroy] || outs == [End(GENERAL_FAILURE)]
      || (|outs| == 1 && AskedConnect(outs[0], all, w))
    case Done => false
    case Over => false
  }

  ghost predicate AskedConnect(out: Out, all: Bytes, w: World) {
    out.Connect? && out.id.Some? && Asked(all, out.id.value, out.host, out.port, w)
  }

  lemma TurnMay(s: Sock, more: seq<Out>, all: Bytes, w: World)
    requires !TurnOf(s, w).Need? && May(TurnOf(s, w).s.phase, more, all, w)
    requires s.phase.Request? && TurnOf(s, w).out.Connect? ==> AskedConnect(TurnOf(s, w).out, all, w)
    ensures May(s.phase, [TurnOf(s, w).out] + more, all, w)
  {
    hide ReadAddress, AskedConnect;
    assert ([TurnOf(s, w).out] + more)[1..] == more;
  }

  lemma {:induction false} StepsMay(s: Sock, more: seq<Out>, seen: Bytes, later: Bytes, w: World)
    requires Knows(s, seen, w) && May(Steps(s, w).0.phase, more, seen + later, w)
    ensures May(s.phase, Steps(s, w).1 + more, seen + later, w)
    decreases Rank(s.phase)
  {
    hide TurnOf, Knows, May, Asked;
    TurnKeeps(s, w);
    if TurnOf(s, w).Need? {
      assert [] + more == more;
    } else {
      var t, out := TurnOf(s, w).s, TurnOf(s, w).out;
      TurnKnows(s, seen, w);
      if s.phase.Request? && out.Connect? { AskedGrown(seen, out.id.value, out.host, out.port, later, w); }
      if TurnOf(s, w).Go? {
        StepsMay(t, more, seen, later, w);
        TurnMay(s, Steps(t, w).1 + more, seen + later, w);
        assert ([out] + Steps(t, w).1) + more == [out] + (Steps(t, w).1 + more);
      } else {
        TurnMay(s, more, seen + later, w);
      }
    }
  }

  lemma {:induction false} PlayMay(s: Sock, seen: Bytes, chunks: seq<Bytes>, w: World)
    requires Knows(s, seen, w)
    ensures May(s.phase, Play(s, chunks, w).1, seen + Concat(chunks), w)
    decreases |chunks|
  {
    if s.phase.Done? || s.phase.Over? {
      PlayStopped(s, chunks, w);
    } else if chunks != [] {
      var later := Concat(chunks[1..]);
      assert (seen + chunks[0]) + later == seen + Concat(chunks);
      if |s.buf| + |chunks[0]| > MAX_HANDSHAKE {
        var t := OnData(s, chunks[0], w).0;
        PlayStopped(t, chunks[1..], w);
        assert [Destroy] + Play(t, chunks[1..], w).1 == [Destroy];
      } else {
        hide TurnOf, Steps, Knows, Play, May;
        var s1 := Grown(s, chunks[0]);
        KnowsGrown(s, seen, chunks[0], w);
        StepsKnow(s1, seen + chunks[0], w);
        PlayMay(Steps(s1, w).0, seen + chunks[0], chunks[1..], w);
        PlayUnfolds(s, chunks, w);
        StepsMay(s1, Play(Steps(s1, w).0, chunks[1..], w).1, seen + chunks[0], later, w);
      }
    }
  }

  lemma {:induction false} MayConnect(p: Phase, outs: seq<Out>, all: Bytes, w: World, i: nat)
    requires May(p, outs, all, w) && i < |outs| && outs[i].Connect?
    ensures i == |outs| - 1 && AskedConnect(outs[i], all, w)
    ensures !p.Request? ==> Write([1, 0]) in outs[..i]
    ensures p.Greet? ==> Write([5, 2]) in outs[..i]
    decreases |outs|
  {
    hide AskedConnect;
    if i > 0 {
      var q := match outs[0] case Write(b) => (if b == [5, 2] then Auth else Request) case _ => p;
      MayConnect(q, outs[1..], all, w, i - 1);
      assert outs[..i] == [outs[0]] + outs[1..][..i - 1];
    }
  }

  /** Over any chunks, refused attempts and what follows them included: beginConnect is
      reached at most once, as the last thing, after both good replies, and only with an id
      for which the client's bytes hold a good login with this very request right behind it. */
  lemma OnlyAuthenticatedConnects(chunks: seq<Bytes>, w: World, i: nat)
    requires i < |Play(Fresh, chunks, w).1| && Play(Fresh, chunks, w).1[i].Connect?
    ensures var outs := Play(Fresh, chunks, w).1;
            && i == |outs| - 1 && Write([5, 2]) in outs[..i] && Write([1, 0]) in outs[..i]
            && outs[i].id.Some? && Asked(Concat(chunks), outs[i].id.value, outs[i].host, outs[i].port, w)
  {
    FreshKnows(w);
    hide *;
    PlayMay(Fresh, [], chunks, w);
    assert [] + Concat(chunks) == Concat(chunks);
    ConnectLast(Play(Fresh, chunks, w).1, Concat(chunks), w, i);
  }

  lemma FreshKnows(w: World)
    ensures Knows(Fresh, [], w) && Fresh.phase == Greet
  {}

  lemma ConnectLast(outs: seq<Out>, all: Bytes, w: World, i: nat)
    requires May(Greet, outs, all, w) && i < |outs| && outs[i].Connect?
    ensures i == |outs| - 1 && Write([5, 2]) in outs[..i] && Write([1, 0]) in outs[..i]
    ensures outs[i].id.Some? && Asked(all, outs[i].id.value, outs[i].host, outs[i].port, w)
  {
    hide May, Asked;
    MayConnect(Greet, outs, all, w, i);
  }

  // --- the socket, in place -------------------------------------------------------------------------------

  class SocksSession {
    const w: World
    var buf: Bytes
    var phase: Phase
    var authed: Option<Bytes>
    var sent: seq<Out>

    ghost function View(): Sock
      reads this
    {
      Sock(buf, phase, authed)
    }

    constructor (w: World)
      ensures View() == Fresh && sent == [] && this.w == w
    {
      this.w := w;
      buf, phase, authed, sent := [], Greet, None, [];
    }

    /** One pass of the `for (;;)` in step: false when step returns. */
    method Turn() returns (more: bool)
      modifies this
      ensures match TurnOf(old(View()), w)
              case Need => !more && View() == old(View()) && sent == old(sent)
              case Go(s, out) => more && View() == s && sent == old(sent) + [out]
              case Halt(s, out) => !more && View() == s && sent == old(sent) + [out]
    {
      match phase
      case Greet => more := OnGreeting();
      case Auth => more := OnLogin();
      case Request => more := OnRequest();
      case Done => more := false;
      case Over => more := false;
    }

    method Kill()
      modifies this`phase, this`sent
      ensures phase == Over && sent == old(sent) + [Destroy]
    {
      phase := Over;
      sent := sent + [Destroy];
    }

    method OnGreeting() returns (more: bool)
      requires phase == Greet
      modifies this
      ensures match Greeting(old(View()))
              case Need => !more && View() == old(View()) && sent == old(sent)
              case Go(s, out) => more && View() == s && sent == old(sent) + [out]
              case Halt(s, out) => !more && View() == s && sent == old(sent) + [out]
    {
      if |buf| < 2 { return false; }
      if buf[0] != 5 { Kill(); return false; }
      var nm := buf[1] as int;
      if |buf| < 2 + nm { return false; }
      var methods := buf[2..2 + nm];
      buf := buf[2 + nm..];
      if 2 !in methods { sent := sent + [End([5, 255])]; return false; }
      sent := sent + [Write([5, 2])];
      phase := Auth;
      return true;
    }

    method OnLogin() returns (more: bool)
      requires phase == Auth
      modifies this
      ensures match Authentication(old(View()), w)
              case Need => !more && View() == old(View()) && sent == old(sent)
              case Go(s, out) => more && View() == s && sent == old(sent) + [out]
              case Halt(s, out) => !more && View() == s && sent == old(sent) + [out]
    {
      if |buf| < 2 { return false; }
      if buf[0] != 1 { Kill(); return false; }
      var ulen := buf[1] as int;
      if |buf| < 2 + ulen + 1 { return false; }
      var plen := buf[2 + ulen] as int;
      if |buf| < 2 + ulen + 1 + plen { return false; }
      var uname, passwd := buf[2..2 + ulen], buf[3 + ulen..3 + ulen + plen];
      buf := buf[3 + ulen + plen..];
      if uname == [] || !w.tokenOk(uname, passwd) || !w.known(uname) { sent := sent + [End([1, 1])]; return false; }
      authed := Some(uname);
      sent := sent + [Write([1, 0])];
      phase := Request;
      return true;
    }

    method OnRequest() returns (more: bool)
      requires phase == Request
      modifies this
      ensures match Requesting(old(View()))
              case Need => !more && View() == old(View()) && sent == old(sent)
              case Go(s, out) => more && View() == s && sent == old(sent) + [out]
              case Halt(s, out) => !more && View() == s && sent == old(sent) + [out]
    {
      if |buf| < 4 { return false; }
      if buf[0] != 5 { Kill(); return false; }
      var cmd, atyp := buf[1], buf[3];
      var host: Host, off: nat;
      if atyp == 1 {
        if |buf| < 10 { return false; }
        host, off := Ip4(buf[4..8]), 8;
      } else if atyp == 4 {
        if |buf| < 22 { return false; }
        host, off := Ip6(buf[4..20]), 20;
      } else if atyp == 3 {
        if |buf| < 5 { return false; }
        var hlen := buf[4] as int;
        if |buf| < 5 + hlen + 2 { return false; }
        host, off := Domain(buf[5..5 + hlen]), 5 + hlen;
      } else {
        Kill();
        return false;
      }
      var port := Get16(buf, off);
      buf := buf[off + 2..];
      phase := Done;
      if cmd != 1 { sent := sent + [End(GENERAL_FAILURE)]; return false; }
      sent := sent + [Connect(authed, host, port)];
      return false;
    }

    /** The data handler. */
    method Data(d: Bytes)
      modifies this
      ensures (View(), sent) == (OnData(old(View()), d, w).0, old(sent) + OnData(old(View()), d, w).1)
    {
      hide TurnOf;
      ghost var was := sent;
      assert was + [] == was;
      if phase == Done || phase == Over { return; }
      buf := buf + d;
      if |buf| > MAX_HANDSHAKE { Kill(); return; }
      ghost var all := Steps(View(), w);
      var more := true;
      while more
        invariant more ==> all.0 == Steps(View(), w).0 && was + all.1 == sent + Steps(View(), w).1
        invariant !more ==> all.0 == View() && was + all.1 == sent
        decreases more, Rank(phase)
      {
        ghost var s, sent0 := View(), sent;
        RankFalls(s, w);
        more := Turn();
        if more {
          assert sent0 + ([TurnOf(s, w).out] + Steps(View(), w).1) == sent + Steps(View(), w).1;
        } else {
          assert sent0 + [] == sent0;
        }
      }
    }
  }

  lemma RankFalls(s: Sock, w: World)
    ensures TurnOf(s, w).Go? ==> Rank(TurnOf(s, w).s.phase) < Rank(s.phase)
  {
    hide ReadAddress;
  }
}
