/** Bytes, 32-bit words in little-endian order, reading at an offset of a buffer, and division. */
module Bytes {

  type Byte = b: int | 0 <= b < 256

  const WORD: nat := 0x1_0000_0000

  type U32 = x: int | 0 <= x < 0x1_0000_0000

  datatype Option<+T> = None | Some(value: T)

  /** The four bytes, least significant first, that a uint32 holding x leaves on the wire. */
  function Le32(x: nat): (s: seq<Byte>)
    ensures |s| == 4
  {
    [x % 256, x / 256 % 256, x / 65536 % 256, x / 16777216 % 256]
  }

  function FromLe32(s: seq<Byte>): (x: U32)
    requires |s| == 4
  {
    var a: int, b: int, c: int, d: int := s[0], s[1], s[2], s[3];
    a + 256 * b + 65536 * c + 16777216 * d
  }

  lemma Le32RoundTrip(x: nat)
    requires x < WORD
    ensures FromLe32(Le32(x)) == x
  {
    assert x / 256 / 256 == x / 65536;
    assert x / 65536 / 256 == x / 16777216;
  }

  /** buf holds s at offset off. */
  ghost predicate At(buf: seq<Byte>, off: nat, s: seq<Byte>) {
    off + |s| <= |buf| && buf[off..off + |s|] == s
  }

  lemma AtSplit(buf: seq<Byte>, off: nat, s: seq<Byte>, t: seq<Byte>)
    ensures At(buf, off, s + t) <==> At(buf, off, s) && At(buf, off + |s|, t)
  {
    if off + |s| + |t| <= |buf| {
      var w := buf[off..off + |s| + |t|];
      assert w == buf[off..off + |s|] + buf[off + |s|..off + |s| + |t|];
      if w == s + t {
        assert w[..|s|] == s && w[|s|..] == t;
      }
    }
  }

  /** The word at an offset, or None when it does not fit, as ReadData reports. */
  function ReadWord(buf: seq<Byte>, off: nat): Option<U32> {
    if off + 4 > |buf| then None else Some(FromLe32(buf[off..off + 4]))
  }

  lemma ReadWordAt(buf: seq<Byte>, off: nat, x: nat)
    requires At(buf, off, Le32(x)) && x < WORD
    ensures ReadWord(buf, off) == Some(x)
  {
    Le32RoundTrip(x);
  }

  lemma Divided(x: nat, n: nat)
    requires n > 0
    ensures x / n * n <= x < (x / n + 1) * n
  {
    assert x == x / n * n + x % n;
  }

  lemma SmallerFactor(p: int, r: int, n: nat)
    requires p * n < r * n
    ensures p < r
  {
    assert (r - p) * n > 0;
  }
}
