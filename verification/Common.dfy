/** Small datatypes every module shares. */
module Common {

  /** A value that may be absent: the source's `null`, `undefined` or empty field. */
  datatype Option<+T> = None | Some(value: T)

  /** One octet of a buffer. */
  type byte = x: int | 0 <= x < 256

  type Bytes = seq<byte>

  // --- sixteen-bit numbers, big-endian -------------------------------------------------------

  function U16(n: nat): (r: Bytes)
    requires n < 65536
    ensures |r| == 2
  {
    [n / 256, n % 256]
  }

  function Get16(b: Bytes, off: nat): (n: nat)
    requires off + 2 <= |b|
    ensures n < 65536
  {
    (b[off] as int) * 256 + b[off + 1]
  }

  lemma Got16(b: Bytes, off: nat, n: nat)
    requires n < 65536 && off + 2 <= |b| && b[off..off + 2] == U16(n)
    ensures Get16(b, off) == n
  {
    assert b[off] == b[off..off + 2][0] && b[off + 1] == b[off..off + 2][1];
  }

  lemma Is16(b: Bytes, off: nat)
    requires off + 2 <= |b|
    ensures b[off..off + 2] == U16(Get16(b, off))
  {
    var n := Get16(b, off);
    assert n / 256 == b[off] && n % 256 == b[off + 1];
  }

  lemma SubSlice(msg: Bytes, p: nat, q: nat, i: nat, j: nat)
    requires p <= q <= |msg| && i <= j <= q - p
    ensures msg[p..q][i..j] == msg[p + i..p + j]
  {
    var a, b := msg[p..q][i..j], msg[p + i..p + j];
    forall k | 0 <= k < |a| ensures a[k] == b[k] {
      assert a[k] == msg[p..q][i + k] == msg[p + (i + k)];
    }
  }

  /** A big-endian number of any width. */
  function FromBytes(b: Bytes): nat {
    if b == [] then 0 else FromBytes(b[..|b| - 1]) * 256 + b[|b| - 1]
  }

  // --- text ------------------------------------------------------------------------------------

  function LowerChar(c: char): char { if 'A' <= c <= 'Z' then (c as int + 32) as char else c }

  /** `toString("ascii").toLowerCase()`: the decoder drops the high bit of every byte. */
  function AsciiLower(body: Bytes): (s: string)
    ensures |s| == |body|
  {
    seq(|body|, i requires 0 <= i < |body| => LowerChar((body[i] % 128) as char))
  }
}
