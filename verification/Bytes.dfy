/** Byte strings, searching in them and big-endian integers: what every parser and framer here shares. */
module Bytes {
  type byte = x: int | 0 <= x < 256
  type bytes = seq<byte>

  datatype Option<+T> = None | Some(value: T)
  datatype Result<+T, +E> = Ok(value: T) | Err(error: E)

  const CR: byte := 13
  const LF: byte := 10
  const CRLF: bytes := [13, 10]
  const CRLFCRLF: bytes := [13, 10, 13, 10]

  // ---- Searching -------------------------------------------------------

  predicate MatchAt(b: bytes, p: bytes, i: int) {
    0 <= i <= i + |p| <= |b| && b[i..i + |p|] == p
  }

  /** bytes.Index(b[i..], p), counted from the start of b: the first match, or -1. */
  function IndexFrom(b: bytes, p: bytes, i: nat): (r: int)
    requires i <= |b|
    ensures r == -1 || (i <= r && MatchAt(b, p, r))
    ensures forall k :: i <= k < |b| && (r == -1 || k < r) ==> !MatchAt(b, p, k)
    ensures p != [] && r != -1 ==> r < |b|
    decreases |b| - i
  {
    if MatchAt(b, p, i) then i
    else if i == |b| then -1
    else IndexFrom(b, p, i + 1)
  }

  function Index(b: bytes, p: bytes): (r: int)
    ensures r == -1 || (0 <= r && MatchAt(b, p, r))
    ensures forall k :: 0 <= k < |b| && (r == -1 || k < r) ==> !MatchAt(b, p, k)
    ensures p != [] && r != -1 ==> r < |b|
  {
    IndexFrom(b, p, 0)
  }

  /** bytes.IndexByte: the first position of c, or -1. */
  function IndexByte(b: bytes, c: byte): (r: int)
    ensures -1 <= r < |b|
    ensures r >= 0 ==> b[r] == c
    ensures forall k :: 0 <= k < |b| && (r < 0 || k < r) ==> b[k] != c
  {
    if b == [] then -1
    else if b[0] == c then 0
    else
      var r := IndexByte(b[1..], c);
      assert forall k :: 1 <= k < |b| ==> b[k] == b[1..][k - 1];
      if r < 0 then -1 else r + 1
  }

  lemma FirstByte(front: bytes, c: byte, back: bytes)
    requires c !in front
    ensures IndexByte(front + [c] + back, c) == |front|
  {
    var s := front + [c] + back;
    assert s[|front|] == c;
    assert forall k :: 0 <= k < |front| ==> s[k] == front[k];
  }

  /** The position that has the defining property of Index is Index. */
  lemma IndexIs(b: bytes, p: bytes, i: nat)
    requires p != [] && MatchAt(b, p, i)
    requires forall k :: 0 <= k < i ==> !MatchAt(b, p, k)
    ensures Index(b, p) == i
  {
    assert i < |b|;
  }

  /** Whether a pattern sits at a position depends only on the bytes up to its end. */
  lemma MatchPrefix(b: bytes, p: bytes, n: nat, i: int)
    requires n <= |b|
    ensures MatchAt(b[..n], p, i) <==> MatchAt(b, p, i) && i + |p| <= n
  {
    if 0 <= i <= i + |p| <= n {
      assert b[..n][i..i + |p|] == b[i..i + |p|];
    }
  }

  /** Growing the buffer past a match does not move the first match. */
  lemma IndexPrefix(b: bytes, p: bytes, n: nat)
    requires n <= |b| && p != []
    ensures Index(b[..n], p) != -1 ==> Index(b[..n], p) == Index(b, p)
    ensures Index(b, p) != -1 && Index(b, p) + |p| <= n ==> Index(b[..n], p) == Index(b, p)
  {
    forall k ensures MatchAt(b[..n], p, k) <==> MatchAt(b, p, k) && k + |p| <= n {
      MatchPrefix(b, p, n, k);
    }
    if Index(b[..n], p) != -1 {
      IndexIs(b, p, Index(b[..n], p));
    }
  }

  // ---- Big-endian integers (encoding/binary) ---------------------------

  function U16(hi: byte, lo: byte): nat { hi * 256 + lo }

  /** binary.BigEndian.PutUint16(buf, uint16(n)): the conversion keeps the low 16 bits. */
  function PutU16(n: nat): (b: bytes)
    ensures |b| == 2
  {
    var m := n % 0x1_0000;
    [m / 256, m % 256]
  }

  function U32(b: bytes): nat
    requires |b| == 4
  {
    U16(b[0], b[1]) * 0x1_0000 + U16(b[2], b[3])
  }

  /** binary.BigEndian.PutUint32 */
  function PutU32(n: nat): bytes
    requires n < 0x1_0000_0000
  {
    PutU16(n / 0x1_0000) + PutU16(n % 0x1_0000)
  }

  /** The high-order byte comes first, in both directions. */
  lemma BigEndian16(hi: byte, lo: byte)
    ensures U16(hi, lo) == 256 * hi + lo && PutU16(256 * hi + lo) == [hi, lo]
  {
    var n: nat := 256 * hi + lo;
    assert n < 65536 && n / 256 == hi && n % 256 == lo;
  }

  lemma BigEndian32(a: byte, b: byte, c: byte, d: byte)
    ensures U32([a, b, c, d]) == 16777216 * a + 65536 * b + 256 * c + d
    ensures PutU32(16777216 * a + 65536 * b + 256 * c + d) == [a, b, c, d]
  {
    hide PutU16, U16;
    BigEndian16(a, b);
    BigEndian16(c, d);
    Halves(256 * a + b, 256 * c + d);
  }

  lemma Halves(hi: nat, lo: nat)
    requires lo < 65536
    ensures (65536 * hi + lo) / 65536 == hi && (65536 * hi + lo) % 65536 == lo
  {
  }

  lemma U16RoundTrip(n: nat)
    ensures U16(PutU16(n)[0], PutU16(n)[1]) == n % 0x1_0000
  {
  }

  lemma U32RoundTrip(n: nat)
    requires n < 0x1_0000_0000
    ensures U32(PutU32(n)) == n
  {
    hide PutU16, U16;
    var hi: nat, lo: nat := n / 0x1_0000, n % 0x1_0000;
    HalvesFit(n);
    var b := PutU32(n);
    assert b[0] == PutU16(hi)[0] && b[1] == PutU16(hi)[1];
    assert b[2] == PutU16(lo)[0] && b[3] == PutU16(lo)[1];
    U16Same(hi);
    U16Same(lo);
  }

  lemma HalvesFit(n: nat)
    requires n < 0x1_0000_0000
    ensures n / 0x1_0000 < 0x1_0000 && n == n / 0x1_0000 * 0x1_0000 + n % 0x1_0000
  {
  }

  lemma U16Same(n: nat)
    requires n < 0x1_0000
    ensures U16(PutU16(n)[0], PutU16(n)[1]) == n
  {
    U16RoundTrip(n);
  }
}
