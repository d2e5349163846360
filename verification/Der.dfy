/** The strict DER reader of relay/certs.js and the DER writer of supervisor.js it mirrors. */
module Der {
  import opened Common

  datatype Result<+T> = Ok(value: T) | Err(error: string) {
    predicate IsFailure() { Err? }
    function PropagateFailure<U>(): Result<U> requires Err? { Err(error) }
    function Extract(): T requires Ok? { value }
  }

  /** The source's `expect`: pass, or throw with a reason. */
  datatype Check = Pass | Fail(error: string) {
    predicate IsFailure() { Fail? }
    function PropagateFailure<U>(): Result<U> requires Fail? { Err(error) }
  }

  function Require(cond: bool, msg: string): Check { if cond then Pass else Fail(msg) }

  /** One element found in a buffer: its header starts at `off`, its contents at `start`. */
  datatype Tlv = Tlv(tag: byte, off: nat, start: nat, end: nat)

  predicate Within(t: Tlv, buf: Bytes) { t.off < t.start <= t.end <= |buf| }

  function Body(buf: Bytes, t: Tlv): Bytes
    requires Within(t, buf)
  {
    buf[t.start..t.end]
  }

  const MAX_KIDS := 32
  const MAX_DEPTH := 16
  const LEN_LIMIT := 0x1_0000_0000

  // --- big-endian numbers ----------------------------------------------------------

  function ToBytes(n: nat): Bytes {
    if n == 0 then [] else ToBytes(n / 256) + [n % 256]
  }

  lemma {:induction false} BytesRoundTrip(n: nat)
    ensures FromBytes(ToBytes(n)) == n && (n > 0 ==> |ToBytes(n)| > 0 && ToBytes(n)[0] != 0)
  {
    if n > 0 {
      BytesRoundTrip(n / 256);
      assert ToBytes(n)[..|ToBytes(n)| - 1] == ToBytes(n / 256);
    }
  }

  lemma {:induction false} MinimalBytes(b: Bytes)
    requires b != [] && b[0] != 0
    ensures FromBytes(b) > 0 && ToBytes(FromBytes(b)) == b
  {
    var n := |b| - 1;
    if n > 0 { MinimalBytes(b[..n]); } else { assert b[..n] == []; }
    var high := FromBytes(b[..n]);
    assert FromBytes(b) / 256 == high && FromBytes(b) % 256 == b[n];
    assert b == b[..n] + [b[n]];
  }

  function Pow256(k: nat): nat { if k == 0 then 1 else 256 * Pow256(k - 1) }

  lemma {:induction false} BytesBelow(b: Bytes)
    ensures FromBytes(b) < Pow256(|b|)
  {
    if b != [] { BytesBelow(b[..|b| - 1]); }
  }

  lemma ShortBytes(n: nat)
    requires 0 < n < LEN_LIMIT
    ensures 1 <= |ToBytes(n)| <= 4
  {
    var a, b, c, d := n / 256, n / 256 / 256, n / 256 / 256 / 256, n / 256 / 256 / 256 / 256;
    assert d == 0;
    assert ToBytes(d) == [];
    assert |ToBytes(c)| <= 1;
    assert |ToBytes(b)| <= 2;
    assert |ToBytes(a)| <= 3;
  }

  // --- the writer -----------------------------------------------------------------------

  function DerLen(n: nat): Bytes
    requires n < LEN_LIMIT
  {
    if n < 128 then [n] else ShortBytes(n); [128 + |ToBytes(n)|] + ToBytes(n)
  }

  datatype Item = Item(tag: byte, body: Bytes)

  predicate Writable(x: Item) { |x.body| < LEN_LIMIT }

  function Encode(x: Item): Bytes
    requires Writable(x)
  {
    [x.tag] + DerLen(|x.body|) + x.body
  }

  predicate AllWritable(xs: seq<Item>) { forall i | 0 <= i < |xs| :: Writable(xs[i]) }

  function EncodeAll(xs: seq<Item>): Bytes
    requires AllWritable(xs)
  {
    if xs == [] then [] else Encode(xs[0]) + EncodeAll(xs[1..])
  }

  // --- the reader -----------------------------------------------------------------------

  function ReadTlv(buf: Bytes, off: nat): (r: Result<Tlv>)
    ensures r.Ok? ==> Within(r.value, buf) && r.value.off == off && r.value.end > off + 1
  {
    if off + 2 > |buf| then Err("truncated DER")
    else
      var b := buf[off + 1];
      if b < 128 then Fits(buf, off, off + 2, b)
      else
        var n := b - 128;
        if n == 0 then Err("indefinite DER length")
        else if n > 4 || off + 2 + n > |buf| then Err("bad DER length")
        else if buf[off + 2] == 0 then Err("non-minimal DER length")
        else
          var len := FromBytes(buf[off + 2..off + 2 + n]);
          if len < 128 then Err("non-minimal DER length") else Fits(buf, off, off + 2 + n, len)
  }

  function Fits(buf: Bytes, off: nat, start: nat, len: nat): (r: Result<Tlv>)
    requires off + 2 <= start <= |buf|
    ensures r.Ok? ==> Within(r.value, buf) && r.value.off == off && r.value.end > off + 1
  {
    if len > |buf| - start then Err("truncated DER") else Ok(Tlv(buf[off], off, start, start + len))
  }

  /** tlv as the source runs it: the long length is accumulated byte by byte. */
  method ReadTlvLoop(buf: Bytes, off: nat) returns (r: Result<Tlv>)
    ensures r == ReadTlv(buf, off)
  {
    if off + 2 > |buf| { return Err("truncated DER"); }
    var len: nat, hdr := buf[off + 1], 2;
    if len >= 128 {
      var n := len - 128;
      if n == 0 { return Err("indefinite DER length"); }
      if n > 4 || off + 2 + n > |buf| { return Err("bad DER length"); }
      if buf[off + 2] == 0 { return Err("non-minimal DER length"); }
      len := 0;
      var digits := buf[off + 2..off + 2 + n];
      for i := 0 to n
        invariant len == FromBytes(digits[..i])
      {
        assert digits[..i + 1][..i] == digits[..i];
        len := len * 256 + buf[off + 2 + i];
      }
      assert digits[..n] == digits;
      if len < 128 { return Err("non-minimal DER length"); }
      hdr := 2 + n;
    }
    var start := off + hdr;
    if len > |buf| - start { return Err("truncated DER"); }
    return Ok(Tlv(buf[off], off, start, start + len));
  }

  /** kids, from an offset and with `have` children already found. */
  function KidsFrom(buf: Bytes, off: nat, end: nat, have: nat): (r: Result<seq<Tlv>>)
    requires off <= end <= |buf|
    decreases end - off
  {
    if off == end then Ok([])
    else
      var c :- ReadTlv(buf, off);
      :- Require(c.end <= end, "bad DER nesting");
      :- Require(have + 1 <= MAX_KIDS, "too many DER children");
      var rest :- KidsFrom(buf, c.end, end, have + 1);
      Ok([c] + rest)
  }

  function Kids(buf: Bytes, t: Tlv, depth: nat): Result<seq<Tlv>>
    requires Within(t, buf)
  {
    if depth > MAX_DEPTH then Err("DER nests too deep") else KidsFrom(buf, t.start, t.end, 0)
  }

  /** kids as the source runs it. */
  method KidsLoop(buf: Bytes, t: Tlv, depth: nat) returns (r: Result<seq<Tlv>>)
    requires Within(t, buf)
    ensures r == Kids(buf, t, depth)
  {
    if depth > MAX_DEPTH { return Err("DER nests too deep"); }
    var out, off := [], t.start;
    ghost var all := KidsFrom(buf, t.start, t.end, 0);
    if all.Ok? { assert [] + all.value == all.value; }
    while off < t.end
      invariant t.start <= off <= t.end
      invariant var rest := KidsFrom(buf, off, t.end, |out|);
                Kids(buf, t, depth) == match rest case Ok(cs) => Ok(out + cs) case Err(e) => Err(e)
      decreases t.end - off
    {
      var c := ReadTlvLoop(buf, off);
      if c.Err? { return Err(c.error); }
      if !(c.value.end > off) || c.value.end > t.end { return Err("bad DER nesting"); }
      ghost var tail := KidsFrom(buf, c.value.end, t.end, |out| + 1);
      if tail.Ok? { assert out + ([c.value] + tail.value) == (out + [c.value]) + tail.value; }
      off := c.value.end;
      out := out + [c.value];
      if |out| > MAX_KIDS { return Err("too many DER children"); }
    }
    assert out + [] == out;
    return Ok(out);
  }

  // --- reader and writer undo each other ----------------------------------------------------

  lemma LongForm(buf: Bytes, off: nat, k: nat, n: nat)
    requires 1 <= k <= 4 && off + 2 + k + n <= |buf| && buf[off + 1] == 128 + k && buf[off + 2] != 0
    requires FromBytes(buf[off + 2..off + 2 + k]) == n >= 128
    ensures ReadTlv(buf, off) == Ok(Tlv(buf[off], off, off + 2 + k, off + 2 + k + n))
  {
    hide FromBytes;
  }

  lemma LongLengthReads(buf: Bytes, off: nat, digits: Bytes, n: nat)
    requires 1 <= |digits| <= 4 && digits[0] != 0 && FromBytes(digits) == n >= 128
    requires off + 2 + |digits| + n <= |buf|
    requires buf[off + 1] == 128 + |digits| && buf[off + 2..off + 2 + |digits|] == digits
    ensures ReadTlv(buf, off) == Ok(Tlv(buf[off], off, off + 2 + |digits|, off + 2 + |digits| + n))
  {
    hide FromBytes, ReadTlv;
    var k := |digits|;
    assert buf[off + 2] == digits[0];
    LongForm(buf, off, k, n);
  }

  lemma LengthReads(buf: Bytes, off: nat, n: nat)
    requires n < LEN_LIMIT && off + 1 + |DerLen(n)| + n <= |buf|
    requires buf[off + 1..off + 1 + |DerLen(n)|] == DerLen(n)
    ensures ReadTlv(buf, off) == Ok(Tlv(buf[off], off, off + 1 + |DerLen(n)|, off + 1 + |DerLen(n)| + n))
  {
    hide FromBytes, ToBytes;
    var len := DerLen(n);
    assert buf[off + 1] == buf[off + 1..off + 1 + |len|][0];
    if n >= 128 {
      ShortBytes(n);
      BytesRoundTrip(n);
      assert buf[off + 2..off + 1 + |len|] == buf[off + 1..off + 1 + |len|][1..];
      LongLengthReads(buf, off, ToBytes(n), n);
    }
  }

  /** Whatever the writer emits, wherever it stands, reads back as that element. */
  lemma WrittenReads(pre: Bytes, x: Item, post: Bytes)
    requires Writable(x)
    ensures var buf := pre + Encode(x) + post;
            var r := ReadTlv(buf, |pre|);
            r.Ok? && r.value.tag == x.tag && r.value.end == |pre| + |Encode(x)| && Body(buf, r.value) == x.body
  {
    hide DerLen, ReadTlv;
    var buf := pre + Encode(x) + post;
    var len := DerLen(|x.body|);
    var start := |pre| + 1 + |len|;
    assert buf[|pre|] == x.tag;
    assert buf[|pre| + 1..start] == len;
    assert buf[start..start + |x.body|] == x.body;
    LengthReads(buf, |pre|, |x.body|);
  }

  /** An accepted element is byte for byte what the writer would have emitted for it. */
  lemma ReadIsWritten(buf: Bytes, off: nat)
    requires ReadTlv(buf, off).Ok?
    ensures var t := ReadTlv(buf, off).value;
            var x := Item(t.tag, Body(buf, t));
            Writable(x) && buf[off..t.end] == Encode(x)
  {
    var t := ReadTlv(buf, off).value;
    var b := buf[off + 1];
    var len := t.end - t.start;
    if b < 128 {
      assert buf[off..t.start] == [t.tag] + [b];
    } else {
      var digits := buf[off + 2..t.start];
      BytesBelow(digits);
      MinimalBytes(digits);
      assert Pow256(|digits|) <= Pow256(4) by { Pow256Grows(|digits|, 4); }
      assert Pow256(4) == LEN_LIMIT by { assert Pow256(2) == 65536; assert Pow256(4) == 256 * (256 * Pow256(2)); }
      assert buf[off..t.start] == [t.tag] + [b] + digits;
    }
    assert buf[off..t.end] == buf[off..t.start] + buf[t.start..t.end];
  }

  /** An element is accepted at an offset exactly when its encoding starts there. */
  lemma TlvExactly(buf: Bytes, off: nat, x: Item)
    requires Writable(x) && off <= |buf|
    ensures Encode(x) <= buf[off..] <==>
            ReadTlv(buf, off).Ok? && Item(ReadTlv(buf, off).value.tag, Body(buf, ReadTlv(buf, off).value)) == x
  {
    if Encode(x) <= buf[off..] {
      assert buf == buf[..off] + Encode(x) + buf[off..][|Encode(x)|..];
      WrittenReads(buf[..off], x, buf[off..][|Encode(x)|..]);
    }
    if ReadTlv(buf, off).Ok? { ReadIsWritten(buf, off); }
  }

  lemma {:induction false} Pow256Grows(a: nat, b: nat)
    requires a <= b
    ensures Pow256(a) <= Pow256(b)
  {
    if a < b { Pow256Grows(a, b - 1); }
  }

  predicate AllWithin(cs: seq<Tlv>, buf: Bytes) { forall i | 0 <= i < |cs| :: Within(cs[i], buf) }

  /** The items a list of elements stands for. */
  function View(buf: Bytes, cs: seq<Tlv>): (xs: seq<Item>)
    requires AllWithin(cs, buf)
    ensures |xs| == |cs| && forall i | 0 <= i < |cs| :: xs[i] == Item(cs[i].tag, Body(buf, cs[i]))
  {
    if cs == [] then [] else [Item(cs[0].tag, Body(buf, cs[0]))] + View(buf, cs[1..])
  }

  lemma ViewCons(buf: Bytes, c: Tlv, rest: seq<Tlv>)
    requires Within(c, buf) && AllWithin(rest, buf)
    ensures AllWithin([c] + rest, buf) && View(buf, [c] + rest) == [Item(c.tag, Body(buf, c))] + View(buf, rest)
  {
    assert ([c] + rest)[1..] == rest;
  }

  lemma EncodeCons(x: Item, xs: seq<Item>)
    requires Writable(x) && AllWritable(xs)
    ensures AllWritable([x] + xs) && EncodeAll([x] + xs) == Encode(x) + EncodeAll(xs)
  {
    assert ([x] + xs)[1..] == xs;
  }

  /** Accepted children tile their parent exactly, each in its only encoding. */
  lemma {:induction false} KidsTile(buf: Bytes, off: nat, end: nat, have: nat)
    requires off <= end <= |buf| && KidsFrom(buf, off, end, have).Ok? && have <= MAX_KIDS
    ensures var cs := KidsFrom(buf, off, end, have).value;
            && AllWithin(cs, buf) && have + |cs| <= MAX_KIDS
            && AllWritable(View(buf, cs)) && EncodeAll(View(buf, cs)) == buf[off..end]
    decreases end - off
  {
    hide ReadTlv, Encode, Writable;
    if off < end {
      var c := ReadTlv(buf, off).value;
      var rest := KidsFrom(buf, c.end, end, have + 1).value;
      ReadIsWritten(buf, off);
      KidsTile(buf, c.end, end, have + 1);
      ViewCons(buf, c, rest);
      EncodeCons(Item(c.tag, Body(buf, c)), View(buf, rest));
      assert buf[off..end] == buf[off..c.end] + buf[c.end..end];
    }
  }

  /** And every list of at most 32 written elements is found again. */
  lemma {:induction false} KidsFind(buf: Bytes, off: nat, end: nat, have: nat, xs: seq<Item>)
    requires off <= end <= |buf| && AllWritable(xs) && buf[off..end] == EncodeAll(xs) && have + |xs| <= MAX_KIDS
    ensures var r := KidsFrom(buf, off, end, have);
            r.Ok? && AllWithin(r.value, buf) && View(buf, r.value) == xs
    decreases |xs|
  {
    hide ReadTlv, DerLen, Body;
    if xs != [] {
      var x := Encode(xs[0]);
      var mid := off + |x|;
      SplitHead(buf, off, end, x, EncodeAll(xs[1..]));
      WrittenReads(buf[..off], xs[0], buf[mid..]);
      KidsFind(buf, mid, end, have + 1, xs[1..]);
      var rest := KidsFrom(buf, mid, end, have + 1).value;
      var c := ReadTlv(buf, off).value;
      ViewCons(buf, c, rest);
      assert [xs[0]] + xs[1..] == xs;
    }
  }

  lemma SplitHead(buf: Bytes, off: nat, end: nat, x: Bytes, tail: Bytes)
    requires off <= end <= |buf| && buf[off..end] == x + tail
    ensures off + |x| <= end && buf[off + |x|..end] == tail && buf == buf[..off] + x + buf[off + |x|..]
  {
    assert buf[off..end][..|x|] == x && buf[off..end][|x|..] == tail;
    assert buf[off..off + |x|] == x;
  }

  /** The contents of an element are the encoding of these items, within the fan-out cap. */
  ghost predicate Holds(body: Bytes, xs: seq<Item>) {
    |xs| <= MAX_KIDS && AllWritable(xs) && body == EncodeAll(xs)
  }

  /** `kids` succeeds exactly on contents that are a short list of canonical encodings, and
      returns that list; it sees nothing of the bytes around them. */
  lemma KidsExactly(buf: Bytes, t: Tlv, depth: nat, xs: seq<Item>)
    requires Within(t, buf) && depth <= MAX_DEPTH
    ensures var r := Kids(buf, t, depth);
            && (r.Ok? ==> AllWithin(r.value, buf) && Holds(Body(buf, t), View(buf, r.value)))
            && (Holds(Body(buf, t), xs) <==>
                  r.Ok? && AllWithin(r.value, buf) && View(buf, r.value) == xs)
  {
    if Kids(buf, t, depth).Ok? { KidsTile(buf, t.start, t.end, 0); }
    if Holds(Body(buf, t), xs) { KidsFind(buf, t.start, t.end, 0, xs); }
  }
}
