/**
 * Fixed-width unsigned integers and their byte forms, little- and
 * big-endian.
 */
module Binary {
  import opened Text

  const TwoTo16: int := 0x1_0000
  const TwoTo32: int := 0x1_0000_0000
  const TwoTo64: int := 0x1_0000_0000_0000_0000
  type uint16 = x: int | 0 <= x < TwoTo16
  type uint32 = x: int | 0 <= x < TwoTo32
  type uint64 = x: int | 0 <= x < TwoTo64

  function Pow256(k: nat): (p: nat)
    ensures p >= 1
  {
    if k == 0 then 1 else 256 * Pow256(k - 1)
  }

  /** The `k` little-endian bytes of `v`. */
  function LittleEndian(v: nat, k: nat): (s: seq<byte>)
    ensures |s| == k
  {
    if k == 0 then [] else [v % 256] + LittleEndian(v / 256, k - 1)
  }

  function FromLittleEndian(s: seq<byte>): (v: nat)
    ensures v < Pow256(|s|)
  {
    if s == [] then 0 else s[0] + 256 * FromLittleEndian(s[1..])
  }

  lemma {:induction false} LittleEndianRoundTrip(v: nat, k: nat)
    requires v < Pow256(k)
    ensures FromLittleEndian(LittleEndian(v, k)) == v
  {
    if k > 0 {
      assert v / 256 < Pow256(k - 1);
      LittleEndianRoundTrip(v / 256, k - 1);
      assert LittleEndian(v, k)[1..] == LittleEndian(v / 256, k - 1);
    }
  }

  /** The `k` big-endian bytes of `v` (network byte order). */
  function BigEndian(v: nat, k: nat): (s: seq<byte>)
    ensures |s| == k
  {
    if k == 0 then [] else BigEndian(v / 256, k - 1) + [v % 256]
  }

  function FromBigEndian(s: seq<byte>): (v: nat)
    ensures v < Pow256(|s|)
  {
    if s == [] then 0 else FromBigEndian(s[..|s| - 1]) * 256 + s[|s| - 1]
  }

  lemma {:induction false} BigEndianRoundTrip(v: nat, k: nat)
    requires v < Pow256(k)
    ensures FromBigEndian(BigEndian(v, k)) == v
  {
    if k > 0 {
      assert v / 256 < Pow256(k - 1);
      BigEndianRoundTrip(v / 256, k - 1);
      var s := BigEndian(v, k);
      assert s[..k - 1] == BigEndian(v / 256, k - 1);
    }
  }

  /** Every `k`-byte string is the big-endian form of its value: the byte form is unique. */
  lemma {:induction false} FromBigEndianRoundTrip(s: seq<byte>)
    ensures BigEndian(FromBigEndian(s), |s|) == s
  {
    if s != [] {
      var init := s[..|s| - 1];
      FromBigEndianRoundTrip(init);
      var v := FromBigEndian(s);
      assert v / 256 == FromBigEndian(init);
      assert v % 256 == s[|s| - 1];
      assert init + [s[|s| - 1]] == s;
    }
  }

  lemma BigEndian16(v: uint16)
    ensures BigEndian(v, 2) == [v / 256, v % 256]
  {
  }

  lemma BigEndian32(v: uint32)
    ensures BigEndian(v, 4) == [v / 0x100_0000, v / 0x1_0000 % 256, v / 256 % 256, v % 256]
  {
    var v1 := v / 256;
    var v2 := v1 / 256;
    var v3 := v2 / 256;
    assert v2 == v / 0x1_0000;
    assert v3 == v / 0x100_0000;
    assert v3 / 256 == 0;
    assert BigEndian(v3, 1) == BigEndian(0, 0) + [v3 % 256];
    assert BigEndian(v2, 2) == BigEndian(v3, 1) + [v2 % 256];
    assert BigEndian(v1, 3) == BigEndian(v2, 2) + [v1 % 256];
  }

  /** Two's-complement wrap-around of an integer into the int64 range, as Go's int64 arithmetic does. */
  function WrapInt64(x: int): (r: int64)
    ensures MinInt64 <= x <= MaxInt64 ==> r == x
  {
    (x - MinInt64) % TwoTo64 + MinInt64
  }

  /** The wrapped value differs from the integer by a multiple of 2^64. */
  lemma WrapInt64Congruent(x: int)
    ensures (WrapInt64(x) - x) % TwoTo64 == 0
  {
    var q := (x - MinInt64) / TwoTo64;
    assert x - MinInt64 == q * TwoTo64 + (x - MinInt64) % TwoTo64;
    assert WrapInt64(x) - x == -q * TwoTo64;
  }

  lemma WrapInt64Add(x: int, k: int)
    ensures WrapInt64(WrapInt64(x) + k) == WrapInt64(x + k)
  {
    var r := WrapInt64(x);
    WrapInt64Congruent(x);
    assert (r + k - MinInt64) % TwoTo64 == (x + k - MinInt64) % TwoTo64 by {
      ModShift(x + k - MinInt64, r - x);
    }
  }

  lemma ModShift(a: int, d: int)
    requires d % TwoTo64 == 0
    ensures (a + d) % TwoTo64 == a % TwoTo64
  {
    var q := d / TwoTo64;
    assert d == q * TwoTo64;
    ModAddMultiple(a, q);
  }

  lemma ModAddMultiple(a: int, q: int)
    ensures (a + q * TwoTo64) % TwoTo64 == a % TwoTo64
  {
  }
}
