/** IPv6 addresses as numbers and as text: relay/api-relay.js writes them (v6ToBig, bigToV6,
    depAddrFor), relay/dns-relay.js reads them again (ipv6Bytes). */
module Ipv6 {
  import opened Common

  // --- splitting and joining ----------------------------------------------------------------------

  /** `s.split(c)` for a one-character separator. */
  function SplitOn(s: string, c: char): (r: seq<string>)
    ensures |r| >= 1
  {
    if s == [] then [[]]
    else
      var r := SplitOn(s[1..], c);
      if s[0] == c then [[]] + r else [[s[0]] + r[0]] + r[1..]
  }

  /** `parts.join(":")` */
  function Join(parts: seq<string>): string {
    if parts == [] then [] else if |parts| == 1 then parts[0] else parts[0] + ":" + Join(parts[1..])
  }

  lemma {:induction false} SplitFront(p: string, rest: string, c: char)
    requires c !in p
    ensures SplitOn(p + [c] + rest, c) == [p] + SplitOn(rest, c)
    ensures SplitOn(p, c) == [p]
  {
    if p == [] {
      assert [] + [c] + rest == [c] + rest && ([c] + rest)[1..] == rest;
    } else {
      SplitFront(p[1..], rest, c);
      assert (p + [c] + rest)[1..] == p[1..] + [c] + rest;
      assert [p[0]] + p[1..] == p;
      var r := SplitOn(p[1..] + [c] + rest, c);
      assert r[0] == p[1..] && r[1..] == SplitOn(rest, c);
    }
  }

  predicate NoColon(parts: seq<string>) { forall i | 0 <= i < |parts| :: ':' !in parts[i] }

  lemma {:induction false} SplitJoin(parts: seq<string>)
    requires parts != [] && NoColon(parts)
    ensures SplitOn(Join(parts), ':') == parts
  {
    if |parts| == 1 {
      SplitFront(parts[0], [], ':');
    } else {
      SplitFront(parts[0], Join(parts[1..]), ':');
      SplitJoin(parts[1..]);
      assert parts[0] + ":" + Join(parts[1..]) == parts[0] + [':'] + Join(parts[1..]);
      assert [parts[0]] + parts[1..] == parts;
    }
  }

  predicate DoubleAt(s: string, i: nat) { i + 1 < |s| && s[i] == ':' && s[i + 1] == ':' }

  /** Where "::" first stands. */
  function FindDouble(s: string): (r: Option<nat>)
    ensures r.Some? ==> r.value + 2 <= |s| && DoubleAt(s, r.value) && forall i | 0 <= i < r.value :: !DoubleAt(s, i)
    ensures r.None? ==> forall i | 0 <= i < |s| :: !DoubleAt(s, i)
  {
    assert forall i | 0 < i < |s| :: DoubleAt(s, i) == DoubleAt(s[1..], i - 1);
    if |s| < 2 then None
    else if s[0] == ':' && s[1] == ':' then Some(0)
    else match FindDouble(s[1..]) case None => None case Some(i) => Some(i + 1)
  }

  /** `s.split("::")` */
  function SplitDouble(s: string): (r: seq<string>)
    ensures |r| >= 1
    decreases |s|
  {
    match FindDouble(s)
    case None => [s]
    case Some(i) => [s[..i]] + SplitDouble(s[i + 2..])
  }

  // --- hexadecimal -----------------------------------------------------------------------------------

  function Digit(d: nat): char
    requires d < 16
  {
    if d < 10 then ('0' as int + d) as char else ('a' as int + d - 10) as char
  }

  function DigitValue(c: char): Option<nat> {
    if '0' <= c <= '9' then Some(c as int - '0' as int)
    else if 'a' <= c <= 'f' then Some(c as int - 'a' as int + 10)
    else if 'A' <= c <= 'F' then Some(c as int - 'A' as int + 10)
    else None
  }

  /** `v.toString(16)` */
  function Hex(n: nat): (s: string)
    ensures |s| >= 1
  {
    if n < 16 then [Digit(n)] else Hex(n / 16) + [Digit(n % 16)]
  }

  /** All digits, most significant first. */
  function HexValue(s: string): Option<nat> {
    if s == [] then Some(0)
    else match (HexValue(s[..|s| - 1]), DigitValue(s[|s| - 1]))
      case (Some(a), Some(b)) => Some(a * 16 + b)
      case _ => None
  }

  /** One group: `/^[0-9a-fA-F]{1,4}$/`. */
  function Group(s: string): Option<nat> { if 1 <= |s| <= 4 then HexValue(s) else None }

  lemma {:induction false} HexReads(n: nat)
    ensures HexValue(Hex(n)) == Some(n) && ':' !in Hex(n) && '.' !in Hex(n) && '%' !in Hex(n)
  {
    if n < 16 {
      assert [Digit(n)][..0] == [];
      assert HexValue([]) == Some(0);
    } else {
      HexReads(n / 16);
      var s := Hex(n);
      assert s[..|s| - 1] == Hex(n / 16) && s[|s| - 1] == Digit(n % 16);
    }
  }

  lemma GroupReads(n: nat)
    requires n < 65536
    ensures Group(Hex(n)) == Some(n)
  {
    HexReads(n);
    assert n / 16 / 16 / 16 < 16;
    assert |Hex(n / 16 / 16 / 16)| == 1;
    assert |Hex(n / 16 / 16)| <= 2;
    assert |Hex(n / 16)| <= 3;
  }

  // --- the number and its groups ------------------------------------------------------------------------

  const LIMIT: nat := 0x1_0000_0000_0000_0000_0000_0000_0000_0000
  const HALF: nat := 0x1_0000_0000_0000_0000

  /** `n >> BigInt(16 * k)` */
  function Shr(n: nat, k: nat): nat { if k == 0 then n else Shr(n, k - 1) / 65536 }

  function Groups(n: nat): (g: seq<nat>)
    ensures |g| == 8 && forall i | 0 <= i < 8 :: g[i] == Shr(n, 7 - i) % 65536
  {
    seq(8, i requires 0 <= i < 8 => Shr(n, 7 - i) % 65536)
  }

  /** `groups.reduce((a, g) => (a << 16n) | g, 0n)` for groups below 2^16. */
  function FromGroups(g: seq<nat>): nat {
    if g == [] then 0 else FromGroups(g[..|g| - 1]) * 65536 + g[|g| - 1]
  }

  lemma {:induction false} Horner(n: nat, g: seq<nat>, i: nat)
    requires |g| == 8 && (forall j | 0 <= j < 8 :: g[j] == Shr(n, 7 - j) % 65536) && i <= 8 && Shr(n, 8) == 0
    ensures FromGroups(g[..i]) == Shr(n, 8 - i)
  {
    if i > 0 {
      Horner(n, g, i - 1);
      assert g[..i][..i - 1] == g[..i - 1];
      assert Shr(n, 9 - i) == Shr(n, 8 - i) / 65536;
    }
  }

  lemma TopIsZero(n: nat)
    requires n < LIMIT
    ensures Shr(n, 8) == 0
  {
    assert Shr(n, 1) < 0x1_0000_0000_0000_0000_0000_0000_0000;
    assert Shr(n, 2) < 0x1_0000_0000_0000_0000_0000_0000;
    assert Shr(n, 3) < 0x1_0000_0000_0000_0000_0000;
    assert Shr(n, 4) < HALF;
    assert Shr(n, 5) < 0x1_0000_0000_0000;
    assert Shr(n, 6) < 0x1_0000_0000;
    assert Shr(n, 7) < 65536;
  }

  lemma GroupsMakeTheNumber(n: nat)
    requires n < LIMIT
    ensures FromGroups(Groups(n)) == n
  {
    TopIsZero(n);
    Horner(n, Groups(n), 8);
    assert Groups(n)[..8] == Groups(n);
  }

  // --- the run of zeros to leave out ----------------------------------------------------------------------

  /** A run of zero groups; the source starts from `{ i: -1, len: 0 }`. */
  datatype Run = Run(i: int, len: nat)

  const NoRun := Run(-1, 0)

  predicate Zeros(g: seq<nat>, i: int, len: nat) {
    0 <= i && i + len <= |g| && forall j | i <= j < i + len :: g[j] == 0
  }

  /** The forEach, from group `i` on. */
  function Scan(g: seq<nat>, i: nat, cur: Run, best: Run): Run
    requires i <= |g|
    decreases |g| - i
  {
    if i == |g| then best
    else if g[i] != 0 then Scan(g, i + 1, NoRun, best)
    else
      var c := Run(if cur.i < 0 then i else cur.i, cur.len + 1);
      Scan(g, i + 1, c, if c.len > best.len then c else best)
  }

  function BestRun(g: seq<nat>): Run { Scan(g, 0, NoRun, NoRun) }

  /** The loop itself. */
  method BestRunLoop(g: seq<nat>) returns (best: Run)
    ensures best == BestRun(g)
  {
    best := NoRun;
    var cur := NoRun;
    for i := 0 to |g|
      invariant Scan(g, i, cur, best) == BestRun(g) && (cur.i < 0 ==> cur == NoRun)
    {
      if g[i] == 0 {
        if cur.i < 0 { cur := Run(i, 0); }
        cur := cur.(len := cur.len + 1);
        if cur.len > best.len { best := cur; }
      } else {
        cur := NoRun;
      }
    }
  }

  /** The run ending at `i` that the scan carries. */
  predicate Carried(g: seq<nat>, i: nat, cur: Run)
    requires i <= |g|
  {
    if cur == NoRun then i == 0 || g[i - 1] != 0
    else Zeros(g, cur.i, cur.len) && cur.i + cur.len == i && cur.len > 0 && (cur.i == 0 || g[cur.i - 1] != 0)
  }

  /** The first longest run among the first `i` groups. */
  ghost predicate FirstLongest(g: seq<nat>, i: nat, best: Run)
    requires i <= |g|
  {
    && (if best.len == 0 then best == NoRun else Zeros(g, best.i, best.len) && best.i + best.len <= i)
    && forall j, m: nat | Zeros(g, j, m) && j + m <= i && m > 0 :: m < best.len || (m == best.len && best.i <= j)
  }

  lemma {:induction false} ScanFinds(g: seq<nat>, i: nat, cur: Run, best: Run)
    requires i <= |g| && Carried(g, i, cur) && FirstLongest(g, i, best) && cur.len <= best.len
    ensures FirstLongest(g, |g|, Scan(g, i, cur, best))
    decreases |g| - i
  {
    if i < |g| {
      if g[i] != 0 {
        ScanFinds(g, i + 1, NoRun, best);
      } else {
        var c := Run(if cur.i < 0 then i else cur.i, cur.len + 1);
        var b := if c.len > best.len then c else best;
        StepFinds(g, i, c, best, b);
        ScanFinds(g, i + 1, c, b);
      }
    }
  }

  lemma StepFinds(g: seq<nat>, i: nat, c: Run, best: Run, b: Run)
    requires i < |g| && g[i] == 0 && Carried(g, i + 1, c) && c != NoRun && FirstLongest(g, i, best)
    requires b == if c.len > best.len then c else best
    ensures FirstLongest(g, i + 1, b)
  {
    forall j, m: nat | Zeros(g, j, m) && j + m <= i + 1 && m > 0
      ensures m < b.len || (m == b.len && b.i <= j)
    {
      if j + m == i + 1 {
        var k := if j < c.i then c.i - 1 else j;
        assert g[k] == 0;
      }
    }
  }

  /** RFC 5952, section 4.2.3: the longest run of zero groups, and of equal ones the first. */
  lemma BestIsFirstLongest(g: seq<nat>)
    ensures FirstLongest(g, |g|, BestRun(g))
  {
    ScanFinds(g, 0, NoRun, NoRun);
  }

  // --- writing ------------------------------------------------------------------------------------------

  function HexAll(g: seq<nat>): (r: seq<string>)
    ensures |r| == |g| && forall i | 0 <= i < |g| :: r[i] == Hex(g[i])
  {
    seq(|g|, i requires 0 <= i < |g| => Hex(g[i]))
  }

  /** The list bigToV6 joins: the run spliced out for an empty entry, doubled at an end. */
  function Pieces(g: seq<nat>): seq<string>
    requires |g| == 8
  {
    var best := BestRun(g);
    BestIsFirstLongest(g);
    var hex := HexAll(g);
    if best.len <= 1 then hex
    else
      var cut := hex[..best.i] + [""] + hex[best.i + best.len..];
      var front := if best.i == 0 then [""] + cut else cut;
      if best.i + best.len == 8 then front + [""] else front
  }

  /** bigToV6; its last step, folding ":::" to "::", never finds any (NoTripleColon). */
  function BigToV6(n: nat): string { Join(Pieces(Groups(n))) }

  /** The same text as head and tail around the gap. */
  function Shown(g: seq<nat>): string
    requires |g| == 8
  {
    var best := BestRun(g);
    BestIsFirstLongest(g);
    if best.len <= 1 then Join(HexAll(g))
    else Join(HexAll(g[..best.i])) + "::" + Join(HexAll(g[best.i + best.len..]))
  }

  lemma {:induction false} JoinConcat(a: seq<string>, b: seq<string>)
    requires a != [] && b != []
    ensures Join(a + b) == Join(a) + ":" + Join(b)
  {
    if |a| == 1 {
      assert (a + b)[1..] == b;
    } else {
      assert (a + b)[1..] == a[1..] + b;
      JoinConcat(a[1..], b);
      assert a[0] + ":" + (Join(a[1..]) + ":" + Join(b)) == a[0] + ":" + Join(a[1..]) + ":" + Join(b);
    }
  }

  lemma TextShown(n: nat)
    ensures BigToV6(n) == Shown(Groups(n))
  {
    var g := Groups(n);
    var best := BestRun(g);
    BestIsFirstLongest(g);
    if best.len > 1 {
      var hex := HexAll(g);
      var a, b := hex[..best.i], hex[best.i + best.len..];
      assert a == HexAll(g[..best.i]) && b == HexAll(g[best.i + best.len..]);
      GapJoins(a, b);
    }
  }

  lemma GapJoins(a: seq<string>, b: seq<string>)
    ensures var cut := a + [""] + b;
            var front := if a == [] then [""] + cut else cut;
            Join(if b == [] then front + [""] else front) == Join(a) + "::" + Join(b)
  {
    var e: seq<string> := [""];
    assert Join(e) == "" && Join(e + e) == ":" by { assert (e + e)[1..] == e; }
    hide Join;
    if a == [] && b == [] {
      JoinConcat(e, e + e);
      assert e + (a + e + b) + e == e + (e + e);
    } else if a == [] {
      JoinConcat(e + e, b);
      assert e + (a + e + b) == (e + e) + b;
    } else if b == [] {
      JoinConcat(a, e + e);
      assert a + e + b + e == a + (e + e);
    } else {
      GapBetween(a, b);
    }
  }

  lemma GapBetween(a: seq<string>, b: seq<string>)
    requires a != [] && b != []
    ensures Join(a + [""] + b) == Join(a) + "::" + Join(b)
  {
    var e: seq<string> := [""];
    assert Join(e) == "";
    hide Join;
    JoinConcat(a, e + b);
    JoinConcat(e, b);
    assert a + e + b == a + (e + b);
    assert Join(a) + ":" + ("" + ":" + Join(b)) == Join(a) + "::" + Join(b);
  }

  // --- reading --------------------------------------------------------------------------------------------

  function Values(gs: seq<string>): Option<seq<nat>> {
    if gs == [] then Some([])
    else match (Group(gs[0]), Values(gs[1..]))
      case (Some(v), Some(vs)) => Some([v] + vs)
      case _ => None
  }

  function NonEmpty(parts: seq<string>): seq<string> {
    if parts == [] then [] else (if parts[0] == "" then [] else [parts[0]]) + NonEmpty(parts[1..])
  }

  function Repeat(s: string, n: nat): (r: seq<string>)
    ensures |r| == n && forall i | 0 <= i < n :: r[i] == s
  {
    seq(n, i => s)
  }

  function ZeroIfEmpty(gs: seq<string>): (r: seq<string>)
    ensures |r| == |gs| && forall i | 0 <= i < |gs| :: r[i] == if gs[i] == "" then "0" else gs[i]
  {
    seq(|gs|, i requires 0 <= i < |gs| => if gs[i] == "" then "0" else gs[i])
  }

  /** v6ToBig; `None` where it throws. */
  function V6ToBig(s: string): Option<nat> {
    var parts := SplitDouble(s);
    var hi := NonEmpty(SplitOn(parts[0], ':'));
    var lo := if |parts| > 1 then NonEmpty(SplitOn(parts[1], ':')) else [];
    if |hi| + |lo| > 8 then None
    else
      var groups := if |parts| > 1 then hi + Repeat("0", 8 - |hi| - |lo|) + lo else SplitOn(s, ':');
      if |groups| != 8 then None
      else match Values(ZeroIfEmpty(groups))
        case None => None
        case Some(g) => Some(FromGroups(g))
  }

  predicate Decimal(s: string) { s != [] && forall i | 0 <= i < |s| :: '0' <= s[i] <= '9' }

  function DecimalValue(s: string): nat
    requires forall i | 0 <= i < |s| :: '0' <= s[i] <= '9'
  {
    if s == [] then 0 else DecimalValue(s[..|s| - 1]) * 10 + (s[|s| - 1] as int - '0' as int)
  }

  function LastColon(s: string): (k: Option<nat>)
    ensures k.Some? ==> k.value < |s|
  {
    if s == [] then None
    else if s[|s| - 1] == ':' then Some(|s| - 1)
    else LastColon(s[..|s| - 1])
  }

  predicate Octet(s: string) { Decimal(s) && |s| <= 3 && DecimalValue(s) <= 255 }

  /** An embedded IPv4 tail becomes two trailing groups; a bad one refuses the address. */
  function WithoutV4(s: string): Option<string> {
    var k := LastColon(s);
    if k.None? then Some(s)
    else
      var p := SplitOn(s[k.value + 1..], '.');
      if |p| != 4 || !(forall i | 0 <= i < 4 :: Decimal(p[i])) then Some(s)
      else if !(forall i | 0 <= i < 4 :: Octet(p[i])) then None
      else Some(s[..k.value + 1] + Hex(DecimalValue(p[0]) * 256 + DecimalValue(p[1])) + ":"
                + Hex(DecimalValue(p[2]) * 256 + DecimalValue(p[3])))
  }

  /** One half of an address: nothing, or its groups. */
  function Half(s: string): seq<string> { if s == "" then [] else SplitOn(s, ':') }

  function GroupBytes(g: seq<nat>): Bytes
    requires forall i | 0 <= i < |g| :: g[i] < 65536
  {
    if g == [] then [] else GroupBytes(g[..|g| - 1]) + U16(g[|g| - 1])
  }

  /** The groups ipv6Bytes ends up with. */
  function ReadGroups(s: string): Option<seq<nat>> {
    match WithoutV4(SplitOn(s, '%')[0])
    case None => None
    case Some(t) =>
      var halves := SplitDouble(t);
      if |halves| > 2 then None
      else if |halves| == 1 then
        var groups := Half(t);
        if |groups| != 8 then None else Values(groups)
      else
        var head, tail := Half(halves[0]), Half(halves[1]);
        if |head| + |tail| > 7 then None
        else Values(head + Repeat("0", 8 - |head| - |tail|) + tail)
  }

  lemma {:induction false} ValuesSmall(gs: seq<string>)
    ensures Values(gs).Some? ==> |Values(gs).value| == |gs| && forall i | 0 <= i < |gs| :: Values(gs).value[i] < 65536
  {
    if gs != [] {
      ValuesSmall(gs[1..]);
      GroupSmall(gs[0]);
    }
  }

  lemma GroupSmall(s: string)
    ensures Group(s).Some? ==> Group(s).value < 65536
  {
    if 1 <= |s| <= 4 && HexValue(s).Some? {
      DigitsBound(s);
      assert Pow16(|s|) <= Pow16(4) == 65536 by { assert Pow16(2) == 256; }
    }
  }

  function Pow16(k: nat): nat { if k == 0 then 1 else 16 * Pow16(k - 1) }

  lemma {:induction false} DigitsBound(s: string)
    requires HexValue(s).Some?
    ensures HexValue(s).value < Pow16(|s|)
  {
    if s != [] { DigitsBound(s[..|s| - 1]); }
  }

  /** ipv6Bytes: sixteen octets, or nothing. */
  function Ipv6Bytes(s: string): Option<Bytes> {
    match ReadGroups(s)
    case None => None
    case Some(g) =>
      GroupsSmall(s);
      Some(GroupBytes(g))
  }

  lemma GroupsSmall(s: string)
    ensures ReadGroups(s).Some? ==> |ReadGroups(s).value| == 8 && forall i | 0 <= i < 8 :: ReadGroups(s).value[i] < 65536
  {
    var t := WithoutV4(SplitOn(s, '%')[0]);
    if t.Some? {
      var halves := SplitDouble(t.value);
      if |halves| == 1 { ValuesSmall(Half(t.value)); }
      if |halves| == 2 {
        var head, tail := Half(halves[0]), Half(halves[1]);
        if |head| + |tail| <= 7 { ValuesSmall(head + Repeat("0", 8 - |head| - |tail|) + tail); }
      }
    }
    hide WithoutV4, SplitOn, SplitDouble, Half, Values;
  }

  lemma {:induction false} BytesOfGroups(g: seq<nat>)
    requires forall i | 0 <= i < |g| :: g[i] < 65536
    ensures |GroupBytes(g)| == 2 * |g| && FromBytes(GroupBytes(g)) == FromGroups(g)
  {
    if g != [] {
      var n := |g| - 1;
      BytesOfGroups(g[..n]);
      var b, last := GroupBytes(g[..n]), U16(g[n]);
      assert GroupBytes(g) == b + [last[0]] + [last[1]];
      assert (b + [last[0]] + [last[1]])[..|b| + 1] == b + [last[0]];
      assert (b + [last[0]])[..|b|] == b;
    }
  }

  // --- what is written reads back ---------------------------------------------------------------------------

  /** No empty group, so no two colons together and none at an end. */
  predicate Clean(s: string) {
    s != [] && s[0] != ':' && s[|s| - 1] != ':' && forall i | 0 <= i < |s| :: !DoubleAt(s, i)
  }

  predicate Plain(s: string) { forall i | 0 <= i < |s| :: s[i] != '.' && s[i] != '%' }

  lemma HexClean(n: nat)
    ensures Clean(Hex(n)) && Plain(Hex(n)) && ':' !in Hex(n)
  {
    HexReads(n);
    var s := Hex(n);
    assert forall i | 0 <= i < |s| :: s[i] in s;
  }

  lemma {:induction false} HexesClean(g: seq<nat>)
    ensures g != [] ==> Clean(Join(HexAll(g)))
    ensures Plain(Join(HexAll(g))) && NoColon(HexAll(g))
    decreases |g|
  {
    forall i | 0 <= i < |g| ensures ':' !in HexAll(g)[i] { HexClean(g[i]); }
    if g != [] {
      HexClean(g[0]);
      HexesClean(g[1..]);
      var p, rest := Hex(g[0]), Join(HexAll(g[1..]));
      assert HexAll(g)[1..] == HexAll(g[1..]);
      if |g| > 1 {
        var s := Join(HexAll(g));
        assert s == p + [':'] + rest;
        forall i | 0 <= i < |s| ensures !DoubleAt(s, i) {
          if i < |p| { assert !DoubleAt(p, i); }
          if i > |p| { assert DoubleAt(s, i) == DoubleAt(rest, i - |p| - 1); }
        }
      }
    }
  }

  lemma DoubleSplits(a: string, b: string)
    requires (a == [] || Clean(a)) && (b == [] || Clean(b))
    ensures SplitDouble(a + "::" + b) == [a, b]
    ensures Clean(a) ==> SplitDouble(a) == [a]
  {
    var s := a + "::" + b;
    assert DoubleAt(s, |a|);
    forall i | 0 <= i < |a| ensures !DoubleAt(s, i) { assert i + 1 < |a| ==> !DoubleAt(a, i); }
    var k := FindDouble(s).value;
    assert k == |a|;
    assert s[..k] == a && s[k + 2..] == b;
    assert FindDouble(b).None?;
    assert [a] + [b] == [a, b];
  }

  lemma {:induction false} NonEmptyKeeps(parts: seq<string>)
    requires forall i | 0 <= i < |parts| :: parts[i] != ""
    ensures NonEmpty(parts) == parts
  {
    if parts != [] {
      NonEmptyKeeps(parts[1..]);
      assert [parts[0]] + parts[1..] == parts;
    }
  }

  lemma {:induction false} ValuesOfHex(g: seq<nat>)
    requires forall i | 0 <= i < |g| :: g[i] < 65536
    ensures Values(HexAll(g)) == Some(g)
  {
    if g != [] {
      GroupReads(g[0]);
      ValuesOfHex(g[1..]);
      assert HexAll(g)[1..] == HexAll(g[1..]);
      assert [g[0]] + g[1..] == g;
    }
  }

  /** The groups of one side of the gap come apart again. */
  lemma HalfReads(g: seq<nat>)
    ensures Half(Join(HexAll(g))) == HexAll(g) && NonEmpty(SplitOn(Join(HexAll(g)), ':')) == HexAll(g)
  {
    HexesClean(g);
    if g != [] {
      SplitJoin(HexAll(g));
      NonEmptyKeeps(HexAll(g));
    } else {
      assert SplitOn("", ':') == [""] && NonEmpty([""]) == [] by { assert [""][1..] == []; }
    }
  }

  lemma GapFilled(g: seq<nat>, i: nat, len: nat)
    requires i + len <= |g| && Zeros(g, i, len)
    ensures HexAll(g[..i]) + Repeat("0", len) + HexAll(g[i + len..]) == HexAll(g)
  {
    assert Hex(0) == "0";
  }

  lemma {:induction false} NoSuchSeparator(s: string, c: char)
    requires c !in s
    ensures SplitOn(s, c) == [s]
  {
    SplitFront(s, [], c);
  }

  lemma PlainHasNoV4(s: string)
    requires Plain(s)
    ensures SplitOn(s, '%') == [s] && WithoutV4(s) == Some(s)
  {
    NoSuchSeparator(s, '%');
    var k := LastColon(s);
    if k.Some? { NoSuchSeparator(s[k.value + 1..], '.'); }
  }

  lemma NoneEmpty(g: seq<nat>)
    ensures ZeroIfEmpty(HexAll(g)) == HexAll(g)
  {}

  lemma GapToBig(s: string, a: string, b: string, hi: seq<string>, lo: seq<string>, gs: seq<string>, g: seq<nat>)
    requires SplitDouble(s) == [a, b] && |hi| + |lo| <= 7 && |gs| == 8
    requires NonEmpty(SplitOn(a, ':')) == hi && NonEmpty(SplitOn(b, ':')) == lo
    requires hi + Repeat("0", 8 - |hi| - |lo|) + lo == gs == ZeroIfEmpty(gs) && Values(gs) == Some(g)
    ensures V6ToBig(s) == Some(FromGroups(g))
  {
    hide SplitOn, SplitDouble, NonEmpty, Values, Repeat, ZeroIfEmpty, FromGroups;
  }

  lemma GapToGroups(s: string, a: string, b: string, hi: seq<string>, lo: seq<string>, gs: seq<string>, g: seq<nat>)
    requires SplitDouble(s) == [a, b] && |hi| + |lo| <= 7 && |gs| == 8 && hi == Half(a) && lo == Half(b)
    requires hi + Repeat("0", 8 - |hi| - |lo|) + lo == gs && Values(gs) == Some(g)
    requires SplitOn(s, '%') == [s] && WithoutV4(s) == Some(s)
    ensures ReadGroups(s) == Some(g)
  {
    hide SplitOn, SplitDouble, Half, WithoutV4, Values, Repeat;
  }

  lemma WholeParses(s: string, g: seq<nat>)
    requires SplitDouble(s) == [s] && |g| == 8 && SplitOn(s, ':') == HexAll(g) == NonEmpty(SplitOn(s, ':')) && s != ""
    requires Values(HexAll(g)) == Some(g) && SplitOn(s, '%') == [s] && WithoutV4(s) == Some(s)
    ensures V6ToBig(s) == Some(FromGroups(g)) && ReadGroups(s) == Some(g)
  {
    hide SplitOn, SplitDouble, NonEmpty, WithoutV4, Values, Hex;
    assert ZeroIfEmpty(HexAll(g)) == HexAll(g);
  }

  lemma WholeReads(g: seq<nat>)
    requires |g| == 8 && (forall i | 0 <= i < 8 :: g[i] < 65536)
    ensures var s := Join(HexAll(g));
            V6ToBig(s) == Some(FromGroups(g)) && ReadGroups(s) == Some(g)
  {
    var s := Join(HexAll(g));
    HexesClean(g);
    PlainHasNoV4(s);
    ValuesOfHex(g);
    HalfReads(g);
    DoubleSplits(s, "");
    SplitJoin(HexAll(g));
    hide SplitOn, SplitDouble, NonEmpty, Half, WithoutV4, Values, V6ToBig, ReadGroups, Plain;
    WholeParses(s, g);
  }

  lemma GapReads(g: seq<nat>, i: nat, len: nat)
    requires |g| == 8 && (forall k | 0 <= k < 8 :: g[k] < 65536) && Zeros(g, i, len) && len > 0
    ensures var s := Join(HexAll(g[..i])) + "::" + Join(HexAll(g[i + len..]));
            V6ToBig(s) == Some(FromGroups(g)) && ReadGroups(s) == Some(g)
  {
    var front, back := g[..i], g[i + len..];
    ValuesOfHex(g);
    GapFilled(g, i, len);
    NoneEmpty(g);
    hide *;
    var hi, lo := HexAll(front), HexAll(back);
    GapText(front, back);
    HalfReads(front);
    HalfReads(back);
    GapToBig(Join(hi) + "::" + Join(lo), Join(hi), Join(lo), hi, lo, HexAll(g), g);
    GapToGroups(Join(hi) + "::" + Join(lo), Join(hi), Join(lo), hi, lo, HexAll(g), g);
  }

  lemma GapText(front: seq<nat>, back: seq<nat>)
    ensures var a, b := Join(HexAll(front)), Join(HexAll(back));
            var s := a + "::" + b;
            SplitDouble(s) == [a, b] && SplitOn(s, '%') == [s] && WithoutV4(s) == Some(s)
  {
    HexesClean(front);
    HexesClean(back);
    var a, b := Join(HexAll(front)), Join(HexAll(back));
    assert front == [] ==> a == [];
    assert back == [] ==> b == [];
    hide Join, HexAll, SplitOn, SplitDouble, WithoutV4, Clean;
    DoubleSplits(a, b);
    PlainHasNoV4(a + "::" + b);
  }

  /** Both readers take the written groups back. */
  lemma ShownReads(g: seq<nat>)
    requires |g| == 8 && forall i | 0 <= i < 8 :: g[i] < 65536
    ensures V6ToBig(Shown(g)) == Some(FromGroups(g)) && ReadGroups(Shown(g)) == Some(g)
  {
    var best := BestRun(g);
    BestIsFirstLongest(g);
    hide BestRun, V6ToBig, ReadGroups, HexAll, Join;
    if best.len <= 1 { WholeReads(g); } else { GapReads(g, best.i, best.len); }
  }

  // --- main results -------------------------------------------------------------------------------------------

  /** For every address: its text reads back as the same number in the api relay, and as its
      sixteen big-endian octets in the DNS server. */
  lemma TextRoundTrips(n: nat)
    requires n < LIMIT
    ensures V6ToBig(BigToV6(n)) == Some(n)
    ensures Ipv6Bytes(BigToV6(n)).Some? && |Ipv6Bytes(BigToV6(n)).value| == 16 && FromBytes(Ipv6Bytes(BigToV6(n)).value) == n
  {
    TextShown(n);
    ShownReads(Groups(n));
    GroupsMakeTheNumber(n);
    BytesOfGroups(Groups(n));
  }

  /** The text is the canonical one of RFC 5952, section 4: lower-case groups without leading
      zeros, "::" for the first longest run of at least two zero groups and for nothing else. */
  lemma TextIsCanonical(n: nat)
    ensures var g := Groups(n);
            var best := BestRun(g);
            && FirstLongest(g, 8, best)
            && BigToV6(n) == if best.len <= 1 then Join(HexAll(g))
                             else Join(HexAll(g[..best.i])) + "::" + Join(HexAll(g[best.i + best.len..]))
    ensures forall i | 0 <= i < 8 :: (Groups(n)[i] > 0 ==> Hex(Groups(n)[i])[0] != '0') && Lower(Hex(Groups(n)[i]))
  {
    TextShown(n);
    BestIsFirstLongest(Groups(n));
    forall i | 0 <= i < 8 ensures (Groups(n)[i] > 0 ==> Hex(Groups(n)[i])[0] != '0') && Lower(Hex(Groups(n)[i])) {
      HexCanonical(Groups(n)[i]);
    }
  }

  predicate Lower(s: string) { forall i | 0 <= i < |s| :: '0' <= s[i] <= '9' || 'a' <= s[i] <= 'f' }

  lemma {:induction false} HexCanonical(n: nat)
    ensures Lower(Hex(n)) && (n > 0 ==> Hex(n)[0] != '0')
  {
    if n >= 16 { HexCanonical(n / 16); }
  }

  lemma NoTripleAround(a: string, b: string, i: nat)
    requires (a == [] || Clean(a)) && (b == [] || Clean(b))
    ensures var s := a + "::" + b;
            !(DoubleAt(s, i) && DoubleAt(s, i + 1))
  {
    var s := a + "::" + b;
    if i < |a| {
      assert s[i] == a[i];
      if i + 1 < |a| { assert s[i + 1] == a[i + 1] && !DoubleAt(a, i); }
    } else if i + 2 < |s| {
      assert s[i + 2] == b[i - |a|];
      if i > |a| && i + 1 < |s| { assert s[i + 1] == b[i - |a| - 1]; }
      if i > |a| + 1 { assert s[i] == b[i - |a| - 2] && !DoubleAt(b, i - |a| - 2); }
    }
  }

  /** There is never a third colon for the source's last replace to fold. */
  lemma NoTripleColon(n: nat, i: nat)
    ensures !(DoubleAt(BigToV6(n), i) && DoubleAt(BigToV6(n), i + 1))
  {
    TextShown(n);
    var g := Groups(n);
    var best := BestRun(g);
    BestIsFirstLongest(g);
    HexesClean(g);
    if best.len > 1 {
      HexesClean(g[..best.i]);
      HexesClean(g[best.i + best.len..]);
      hide BigToV6, BestRun, FirstLongest, Clean, HexAll, DoubleAt, Join, Groups;
      NoTripleAround(Join(HexAll(g[..best.i])), Join(HexAll(g[best.i + best.len..])), i);
    }
  }

  // --- a deployment's own address ----------------------------------------------------------------------------

  /** The 64 hash bits, moved out of the range kept for infrastructure. */
  function HostBits(hash: nat): nat { if hash < 65536 then hash + 65536 else hash }

  /** The upper and the lower 64 bits of an address. */
  function High(n: nat): nat { n / 0x1_0000_0000_0000_0000 }

  function Low(n: nat): nat { n % 0x1_0000_0000_0000_0000 }

  function InNet(net: nat, host: nat): nat { net * 0x1_0000_0000_0000_0000 + host }

  /** depAddrFor, for the configured prefix and the first 64 bits of the id's hash. */
  function DepAddrFor(prefix: string, hash: nat): Option<string> {
    match V6ToBig(prefix)
    case None => None
    case Some(p) => Some(BigToV6(InNet(High(p), HostBits(hash))))
  }

  lemma HighFits(n: nat)
    requires n < LIMIT
    ensures High(n) < HALF
  {}

  lemma TwoHalves(net: nat, host: nat)
    requires net < HALF && host < HALF
    ensures InNet(net, host) < LIMIT && High(InNet(net, host)) == net && Low(InNet(net, host)) == host
  {}

  /** The address stays in the prefix's /64 and out of its reserved range, and two hashes share
      one exactly when the move makes them meet. */
  lemma DepAddrStays(prefix: string, hash: nat, other: nat)
    requires V6ToBig(prefix).Some? && V6ToBig(prefix).value < LIMIT && hash < HALF && other < HALF
    ensures var a := V6ToBig(DepAddrFor(prefix, hash).value);
            a.Some? && High(a.value) == High(V6ToBig(prefix).value) && Low(a.value) >= 65536
    ensures DepAddrFor(prefix, hash) == DepAddrFor(prefix, other)
            <==> hash == other || hash == other + 65536 < 131072 || other == hash + 65536 < 131072
  {
    var net := High(V6ToBig(prefix).value);
    HighFits(V6ToBig(prefix).value);
    hide V6ToBig, BigToV6, InNet, High, Low, Ipv6Bytes, FromBytes;
    TwoHalves(net, HostBits(hash));
    TwoHalves(net, HostBits(other));
    TextRoundTrips(InNet(net, HostBits(hash)));
    TextRoundTrips(InNet(net, HostBits(other)));
  }
}
